/**
 * The services as they run: one database session whose tables the calls update row by
 * row, and a sender that collects what must be sent. Every call is proved to leave
 * exactly the tables, and to enqueue exactly the messages, of its transaction.
 */
module Services {
  import opened Domain
  import opened Capacity
  import opened Lifecycle
  import opened Consumer
  import opened Outbox
  import Nodes

  // ----- prefixes of a snapshot's allocations

  lemma {:induction false} FirstNamedStep(s: seq<Allocation>, i: nat, name: string)
    requires i < |s|
    ensures FirstNamed(s[..i + 1], name) ==
              if FirstNamed(s[..i], name).Some? then FirstNamed(s[..i], name)
              else if s[i].name == name && name != CATCH_ALL then Some(s[i]) else None
  {
    if i == 0 {
      assert s[..1] == [s[0]] && s[..0] == [];
      assert [s[0]][1..] == [];
    } else {
      FirstNamedStep(s[1..], i - 1, name);
      assert s[..i + 1][1..] == s[1..][..i] && s[..i][1..] == s[1..][..i - 1];
    }
  }

  lemma {:induction false} FirstNamedPrefix(s: seq<Allocation>, i: nat, name: string)
    requires i <= |s| && FirstNamed(s[..i], name).Some?
    ensures FirstNamed(s, name) == FirstNamed(s[..i], name)
    decreases |s| - i
  {
    if i == |s| {
      assert s[..i] == s;
    } else {
      FirstNamedStep(s, i, name);
      FirstNamedPrefix(s, i + 1, name);
    }
  }

  /** Writing a quota row and then reviewing its project is settling that one project. */
  lemma WriteThenReview(db: Db, pid: ProjectId, q: Quota)
    requires Structure(db) && pid in db.projects && q.cluster == db.quotas[pid].cluster
    ensures var mid := db.(quotas := db.quotas[pid := q]);
            Structure(mid) && mid.quotas[pid] == q && Settled(mid, map[pid := q]) == Settled(db, map[pid := q])
  {
    assert Owned(db, pid);
    QuotaWriteViews(db, pid, q);
    var mid, upd := db.(quotas := db.quotas[pid := q]), map[pid := q];
    assert WithQuota(mid, upd, pid) == WithQuota(db, upd, pid);
    assert Leaving(mid, upd) == Leaving(db, upd);
    assert ReviewedProjects(mid, upd) == ReviewedProjects(db, upd);
    assert Rows(mid.quotas, upd, Leaving(db, upd)) == Rows(db.quotas, upd, Leaving(db, upd));
  }

  /** Settling a single project with the quota it has: the removal or the review the source performs. */
  lemma SettledOne(db: Db, pid: ProjectId)
    requires Complete(db) && pid in db.projects
    ensures Settled(db, map[pid := db.quotas[pid]]) ==
              if ViewOf(db, pid).Finished() then
                Db(Without(db.order, {pid}), db.projects - {pid}, db.quotas - {pid},
                   Unowned(db.namespaces, {pid}), db.nodes)
              else db.(projects := db.projects[pid := ViewOf(db, pid).Reviewed().project])
  {
    OneLeaving(db, pid);
    var upd, v := map[pid := db.quotas[pid]], ViewOf(db, pid);
    if v.Finished() {
      SettledParts(db, upd, {pid}, map[pid := v.Reviewed().project]);
    } else {
      SettledParts(db, upd, {}, map[pid := v.Reviewed().project]);
      WithoutNothing(db.order);
      assert Unowned(db.namespaces, {}) == db.namespaces;
    }
    OneRow(db.projects, pid, v.Reviewed().project);
    OneRow(db.quotas, pid, db.quotas[pid]);
    assert db.quotas[pid := db.quotas[pid]] == db.quotas;
  }

  lemma SettledParts(db: Db, upd: map<ProjectId, Quota>, gone: set<ProjectId>, reviewed: map<ProjectId, Project>)
    requires Complete(db) && Leaving(db, upd) == gone && ReviewedProjects(db, upd) == reviewed
    ensures Settled(db, upd) ==
              Db(Without(db.order, gone), Rows(db.projects, reviewed, gone), Rows(db.quotas, upd, gone),
                 Unowned(db.namespaces, gone), db.nodes)
  {
  }

  lemma OneRow<T>(table: map<ProjectId, T>, pid: ProjectId, row: T)
    requires pid in table
    ensures Rows(table, map[pid := row], {pid}) == table - {pid}
    ensures Rows(table, map[pid := row], {}) == table[pid := row]
  {
  }

  /** The verdicts on a set of projects. */
  ghost function Restrict(all: map<ProjectId, Quota>, pids: set<ProjectId>): map<ProjectId, Quota> {
    map pid | pid in all && pid in pids :: all[pid]
  }

  lemma RestrictOneMore(all: map<ProjectId, Quota>, pids: set<ProjectId>, pid: ProjectId)
    requires pid !in pids
    ensures Restrict(all, pids + {pid}) ==
              if pid in all then Restrict(all, pids)[pid := all[pid]] else Restrict(all, pids)
  {
  }

  lemma RestrictAll(all: map<ProjectId, Quota>, pids: set<ProjectId>)
    requires all.Keys <= pids
    ensures Restrict(all, pids) == all
  {
  }

  /** Quotas that a snapshot stamped `at` may judge, by project name. */
  ghost predicate Considered(db: Db, c: ClusterId, at: Time, byName: map<string, ProjectId>)
    requires Complete(db)
  {
    && (forall name :: name in byName ==> var pid := byName[name];
          && pid in db.projects && db.projects[pid].name == name
          && db.projects[pid].cluster == c && db.quotas[pid].updatedAt <= at)
    && (forall pid :: pid in db.projects && db.projects[pid].cluster == c && db.quotas[pid].updatedAt <= at ==>
          db.projects[pid].name in byName && byName[db.projects[pid].name] == pid)
  }

  /** `all` holds the verdict on every quota the snapshot writes. */
  ghost predicate Judges(db: Db, all: map<ProjectId, Quota>, c: ClusterId, at: Time, allocations: seq<Allocation>,
                         now: Time)
    requires Complete(db)
  {
    && Updates(db, all)
    && (forall pid :: pid in db.projects ==> Judged(db, all, pid, c, at, allocations, now))
  }

  ghost predicate Judged(db: Db, all: map<ProjectId, Quota>, pid: ProjectId, c: ClusterId, at: Time,
                         allocations: seq<Allocation>, now: Time)
    requires Complete(db) && pid in db.projects
  {
    var p, q := db.projects[pid], db.quotas[pid];
    && (pid in all <==> p.cluster == c && Affected(q, p.name, at, allocations))
    && (pid in all ==> all[pid] == Verdict(q, p.name, at, allocations, now))
  }

  lemma VerdictsJudge(db: Db, c: ClusterId, at: Time, allocations: seq<Allocation>, now: Time)
    requires Structure(db)
    ensures Judges(db, Verdicts(db, c, at, allocations, now), c, at, allocations, now)
  {
    var all := Verdicts(db, c, at, allocations, now);
    forall pid | pid in db.projects ensures Judged(db, all, pid, c, at, allocations, now) {
      assert Owned(db, pid);
    }
  }

  /** A project whose verdict is still to be applied shows the rows it had at the start. */
  lemma StillUntouched(db: Db, all: map<ProjectId, Quota>, pids: set<ProjectId>, pid: ProjectId)
    requires Structure(db) && Updates(db, all) && pid in db.projects && pid !in pids
    ensures var mid := Settled(db, Restrict(all, pids));
            && pid in mid.projects && pid in mid.quotas
            && mid.quotas[pid] == db.quotas[pid] && mid.projects[pid] == db.projects[pid]
  {
    SettledViews(db, Restrict(all, pids));
    assert ViewOf(Settled(db, Restrict(all, pids)), pid) == ViewOf(db, pid);
  }

  /** The verdict on a quota that the snapshot does not name. */
  function UnnamedVerdict(q: Quota, at: Time, now: Time): Quota {
    if q.status.Active() then
      var reason := if Telling(q.reason) then q.reason else Some(Missing(q.figures));
      Restated(q, QuotaStatus.Failed, reason, at).(figures := ZERO)
    else Restated(q, QuotaStatus.Deleted, Some(MarkedDeleted), now)
  }

  /** `all` holds that verdict for the project's quota. */
  ghost predicate Unnamed(db: Db, all: map<ProjectId, Quota>, pid: ProjectId, at: Time, now: Time) {
    pid in db.projects && pid in db.quotas && pid in all && all[pid] == UnnamedVerdict(db.quotas[pid], at, now)
  }

  /** A plan of quota rows to write, for tables in order. */
  ghost predicate Planned(db: Db, all: map<ProjectId, Quota>) {
    Structure(db) && Updates(db, all)
  }

  /** The tables once the plan has been carried out for `done`. */
  ghost function Partly(db: Db, all: map<ProjectId, Quota>, done: set<ProjectId>): Db
    requires Planned(db, all)
  {
    Settled(db, Restrict(all, done))
  }

  /** The quotas put aside, from position `i` on, all different and still to be deleted. */
  ghost predicate Waiting(db: Db, all: map<ProjectId, Quota>, toDelete: seq<ProjectId>, i: nat, at: Time, now: Time,
                          done: set<ProjectId>) {
    && (forall k :: i <= k < |toDelete| ==>
          Unnamed(db, all, toDelete[k], at, now) && !db.quotas[toDelete[k]].status.Active() && toDelete[k] !in done)
    && (forall k, m :: i <= k < m < |toDelete| ==> toDelete[k] != toDelete[m])
  }

  /** Every quota put aside before position `i` has been deleted. */
  ghost predicate Through(toDelete: seq<ProjectId>, i: nat, done: set<ProjectId>) {
    forall k :: 0 <= k < i && k < |toDelete| ==> toDelete[k] in done
  }

  lemma WaitingStep(db: Db, all: map<ProjectId, Quota>, toDelete: seq<ProjectId>, i: nat, at: Time, now: Time,
                    done: set<ProjectId>)
    requires i < |toDelete| && Waiting(db, all, toDelete, i, at, now, done) && Through(toDelete, i, done)
    ensures Waiting(db, all, toDelete, i + 1, at, now, done + {toDelete[i]})
    ensures Through(toDelete, i + 1, done + {toDelete[i]})
    ensures toDelete[i] !in done && Unnamed(db, all, toDelete[i], at, now) && !db.quotas[toDelete[i]].status.Active()
  {
  }

  /** The quotas under `names` are still to be looked at; the others are done or put aside. */
  ghost predicate Sorting(db: Db, all: map<ProjectId, Quota>, byName: map<string, ProjectId>, names: set<string>,
                          toDelete: seq<ProjectId>, at: Time, now: Time, done: set<ProjectId>) {
    && names <= byName.Keys
    && Waiting(db, all, toDelete, 0, at, now, done)
    && (forall name :: name in byName ==> Unnamed(db, all, byName[name], at, now))
    && (forall a, b :: a in byName && b in byName && a != b ==> byName[a] != byName[b])
    && (forall name :: name in names ==> byName[name] !in done && byName[name] !in toDelete)
    && (forall name :: name in byName ==> name in names || byName[name] in done || byName[name] in toDelete)
  }

  lemma SortingStep(db: Db, all: map<ProjectId, Quota>, byName: map<string, ProjectId>, names: set<string>,
                    toDelete: seq<ProjectId>, at: Time, now: Time, done: set<ProjectId>, name: string)
    requires Sorting(db, all, byName, names, toDelete, at, now, done) && name in names
    ensures var pid := byName[name];
            && Unnamed(db, all, pid, at, now) && pid !in done
            && (if db.quotas[pid].status.Active()
                then Sorting(db, all, byName, names - {name}, toDelete, at, now, done + {pid})
                else Sorting(db, all, byName, names - {name}, toDelete + [pid], at, now, done))
  {
  }

  lemma JudgedUnnamed(db: Db, all: map<ProjectId, Quota>, pid: ProjectId, c: ClusterId, at: Time,
                      allocations: seq<Allocation>, now: Time)
    requires Complete(db) && pid in db.projects && Judged(db, all, pid, c, at, allocations, now)
    requires db.projects[pid].cluster == c && db.quotas[pid].updatedAt <= at
    requires FirstNamed(allocations, db.projects[pid].name).None?
    ensures Unnamed(db, all, pid, at, now)
  {
  }

  /** What a failure notice plans for one project. */
  ghost predicate Fails(db: Db, all: map<ProjectId, Quota>, pid: ProjectId, c: ClusterId, at: Time,
                        reason: Option<Reason>)
    requires Complete(db) && pid in db.projects
  {
    && (pid in all <==> db.projects[pid].cluster == c && Failing(db.quotas[pid], at))
    && (pid in all ==> all[pid] == Restated(db.quotas[pid], QuotaStatus.Failed, reason, at))
  }

  lemma FailuresFail(db: Db, c: ClusterId, at: Time, reason: Option<Reason>)
    requires Structure(db)
    ensures Planned(db, Failures(db, c, at, reason))
    ensures FailedUpTo(db, Failures(db, c, at, reason), db.order, 0, c, at, reason, {})
  {
    var all := Failures(db, c, at, reason);
    forall pid | pid in db.projects ensures pid in db.order && Fails(db, all, pid, c, at, reason) {
      assert Owned(db, pid);
    }
    forall k | 0 <= k < |db.order| ensures db.order[k] in db.projects {
      assert db.order[k] in db.order;
    }
  }

  /** The pass over pending quotas has reached position `i`. */
  ghost predicate FailedUpTo(db: Db, all: map<ProjectId, Quota>, rows: seq<ProjectId>, i: nat,
                         c: ClusterId, at: Time, reason: Option<Reason>, done: set<ProjectId>)
    requires Complete(db)
  {
    && Distinct(rows) && i <= |rows|
    && (forall pid :: pid in all ==> pid in rows)
    && (forall k :: 0 <= k < |rows| ==> rows[k] in db.projects && Fails(db, all, rows[k], c, at, reason))
    && (forall k :: 0 <= k < |rows| ==> (rows[k] in done <==> k < i))
  }

  lemma FailedStep(db: Db, all: map<ProjectId, Quota>, rows: seq<ProjectId>, i: nat,
                   c: ClusterId, at: Time, reason: Option<Reason>, done: set<ProjectId>)
    requires Complete(db) && i < |rows| && FailedUpTo(db, all, rows, i, c, at, reason, done)
    ensures rows[i] in db.projects && rows[i] !in done && Fails(db, all, rows[i], c, at, reason)
    ensures FailedUpTo(db, all, rows, i + 1, c, at, reason, done + {rows[i]})
  {
  }

  lemma FailedAll(db: Db, all: map<ProjectId, Quota>, rows: seq<ProjectId>,
                  c: ClusterId, at: Time, reason: Option<Reason>, done: set<ProjectId>)
    requires Complete(db) && FailedUpTo(db, all, rows, |rows|, c, at, reason, done)
    ensures all.Keys <= done
  {
    forall pid | pid in all ensures pid in done {
      var k :| 0 <= k < |rows| && rows[k] == pid;
    }
  }

  /** A call raises exactly the error its transaction ends with. */
  predicate Matches<T>(r: Result<()>, spec: Result<T>) {
    if spec.Err? then r == Err(spec.error) else r.Ok?
  }

  /** The allocation message does not depend on namespaces. */
  lemma SameTotals(db: Db, db': Db, c: ClusterId)
    requires db' == db.(namespaces := db'.namespaces)
    ensures AllocationMessage(db, c) == AllocationMessage(db', c)
  {
    SameAllocations(db, db', db.order, c);
  }

  lemma {:induction false} SameAllocations(db: Db, db': Db, ids: seq<ProjectId>, c: ClusterId)
    requires db' == db.(namespaces := db'.namespaces)
    ensures ProjectAllocations(db, ids, c) == ProjectAllocations(db', ids, c)
  {
    if ids != [] {
      SameAllocations(db, db', ids[1..], c);
    }
  }

  /** `all` holds the verdict on a quota that the snapshot gives as `a`. */
  ghost predicate Named(db: Db, all: map<ProjectId, Quota>, pid: ProjectId, a: Allocation, at: Time) {
    && pid in db.projects && pid in db.quotas
    && var q := db.quotas[pid];
       if q.figures != a.figures then
         pid in all && all[pid] == Restated(q, QuotaStatus.Failed, Some(Mismatch(a.figures)), at)
       else if q.status != QuotaStatus.Ready then pid in all && all[pid] == Restated(q, QuotaStatus.Ready, None, at)
       else pid !in all
  }

  ghost predicate AllNamed(db: Db, all: map<ProjectId, Quota>, start: map<string, ProjectId>,
                           allocations: seq<Allocation>, at: Time) {
    forall name :: name in start && FirstNamed(allocations, name).Some? ==>
      Named(db, all, start[name], FirstNamed(allocations, name).value, at)
  }

  lemma NamedAt(db: Db, all: map<ProjectId, Quota>, start: map<string, ProjectId>, allocations: seq<Allocation>,
                at: Time, a: Allocation)
    requires AllNamed(db, all, start, allocations, at) && a.name in start && FirstNamed(allocations, a.name) == Some(a)
    ensures Named(db, all, start[a.name], a, at)
  {
  }

  lemma JudgedNamed(db: Db, all: map<ProjectId, Quota>, c: ClusterId, at: Time, allocations: seq<Allocation>, now: Time,
                    start: map<string, ProjectId>)
    requires Structure(db) && Judges(db, all, c, at, allocations, now) && Considered(db, c, at, start)
    ensures AllNamed(db, all, start, allocations, at) && Popping(start, start, {})
  {
    forall name | name in start && FirstNamed(allocations, name).Some?
      ensures Named(db, all, start[name], FirstNamed(allocations, name).value, at)
    {
      assert Owned(db, start[name]) && Judged(db, all, start[name], c, at, allocations, now);
    }
  }

  /** None of these names was met before position `i`. */
  ghost predicate Unmet(names: set<string>, allocations: seq<Allocation>, i: nat) {
    i <= |allocations| && forall name :: name in names ==> FirstNamed(allocations[..i], name).None?
  }

  lemma UnmetOne(allocations: seq<Allocation>, i: nat, name: string)
    requires i < |allocations| && FirstNamed(allocations[..i], name).None?
    ensures allocations[i].name == name != CATCH_ALL ==> FirstNamed(allocations, name) == Some(allocations[i])
    ensures allocations[i].name != name || name == CATCH_ALL ==> FirstNamed(allocations[..i + 1], name).None?
  {
    FirstNamedStep(allocations, i, name);
    if allocations[i].name == name != CATCH_ALL {
      FirstNamedPrefix(allocations, i + 1, name);
    }
  }

  lemma UnmetStep(names: set<string>, rest: set<string>, allocations: seq<Allocation>, i: nat)
    requires i < |allocations| && Unmet(names, allocations, i) && rest <= names
    requires allocations[i].name != CATCH_ALL ==> allocations[i].name !in rest
    ensures Unmet(rest, allocations, i + 1)
    ensures allocations[i].name != CATCH_ALL && allocations[i].name in names ==>
              FirstNamed(allocations, allocations[i].name) == Some(allocations[i])
  {
    forall name | name in names
      ensures name in rest ==> FirstNamed(allocations[..i + 1], name).None?
      ensures name == allocations[i].name != CATCH_ALL ==> FirstNamed(allocations, name) == Some(allocations[i])
    {
      UnmetOne(allocations, i, name);
    }
  }

  /** What remains of the quotas by name, and the projects already popped. */
  ghost predicate Popping(start: map<string, ProjectId>, byName: map<string, ProjectId>, done: set<ProjectId>) {
    && (forall name :: name in byName ==> name in start && byName[name] == start[name] && byName[name] !in done)
    && (forall name :: name in start ==> name in byName || start[name] in done)
    && (forall a, b :: a in start && b in start && a != b ==> start[a] != start[b])
  }

  lemma PoppingStep(start: map<string, ProjectId>, byName: map<string, ProjectId>, done: set<ProjectId>, name: string)
    requires Popping(start, byName, done) && name in byName
    ensures Popping(start, byName - {name}, done + {byName[name]}) && byName[name] !in done
    ensures (byName - {name}).Keys == byName.Keys - {name}
  {
  }

  lemma PopStep(db: Db, all: map<ProjectId, Quota>, start: map<string, ProjectId>, byName: map<string, ProjectId>,
                done: set<ProjectId>, allocations: seq<Allocation>, i: nat, at: Time)
    requires i < |allocations| && Popping(start, byName, done) && Unmet(byName.Keys, allocations, i)
    requires AllNamed(db, all, start, allocations, at)
    ensures var a := allocations[i];
            if a.name != CATCH_ALL && a.name in byName then
              && byName[a.name] !in done && Named(db, all, byName[a.name], a, at)
              && Popping(start, byName - {a.name}, done + {byName[a.name]})
              && Unmet((byName - {a.name}).Keys, allocations, i + 1)
            else Unmet(byName.Keys, allocations, i + 1)
  {
    var a := allocations[i];
    if a.name != CATCH_ALL && a.name in byName {
      PoppingStep(start, byName, done, a.name);
      UnmetStep(byName.Keys, byName.Keys - {a.name}, allocations, i);
      NamedAt(db, all, start, allocations, at, a);
    } else {
      UnmetStep(byName.Keys, byName.Keys, allocations, i);
    }
  }

  lemma NothingYet(db: Db, all: map<ProjectId, Quota>)
    requires Planned(db, all)
    ensures Partly(db, all, {}) == db
  {
    assert Restrict(all, {}) == map[];
    SettledNothing(db);
  }

  /** Quotas left after the pops are unnamed. */
  lemma JudgedRest(db: Db, all: map<ProjectId, Quota>, c: ClusterId, at: Time, allocations: seq<Allocation>, now: Time,
                   start: map<string, ProjectId>, byName: map<string, ProjectId>, popped: set<ProjectId>)
    requires Structure(db) && Judges(db, all, c, at, allocations, now) && Considered(db, c, at, start)
    requires Popping(start, byName, popped) && Unmet(byName.Keys, allocations, |allocations|)
    ensures Sorting(db, all, byName, byName.Keys, [], at, now, popped)
  {
    assert allocations[..|allocations|] == allocations;
    forall name | name in byName ensures Unnamed(db, all, byName[name], at, now) {
      JudgedUnnamed(db, all, byName[name], c, at, allocations, now);
    }
  }

  /** Together the three passes reach every quota that gets a verdict. */
  lemma AllJudged(db: Db, all: map<ProjectId, Quota>, c: ClusterId, at: Time, allocations: seq<Allocation>, now: Time,
                  start: map<string, ProjectId>, byName: map<string, ProjectId>, popped: set<ProjectId>,
                  toDelete: seq<ProjectId>, settled: set<ProjectId>, done: set<ProjectId>)
    requires Complete(db) && Judges(db, all, c, at, allocations, now) && Considered(db, c, at, start)
    requires Popping(start, byName, popped) && Sorting(db, all, byName, {}, toDelete, at, now, settled)
    requires popped <= settled <= done && Through(toDelete, |toDelete|, done)
    ensures all.Keys <= done
  {
    forall pid | pid in all ensures pid in done {
      assert Judged(db, all, pid, c, at, allocations, now);
      assert start[db.projects[pid].name] == pid;
      if pid !in popped && pid in toDelete {
        var k :| 0 <= k < |toDelete| && toDelete[k] == pid;
      }
    }
  }

  /** What users ask for. */
  datatype Request =
    | Create(cluster: ClusterId, healthy: bool, name: string, figures: Resources)
    | Edit(project: ProjectId, figures: Resources)
    | Delete(project: ProjectId)

  function Requested(db: Db, r: Request, pid: ProjectId, now: Time): Result<(Db, seq<Outgoing>)>
    requires Structure(db)
  {
    match r
    case Create(c, healthy, name, figures) => CreateProject(db, pid, c, healthy, name, figures, now)
    case Edit(p, figures) => EditQuota(db, p, figures, now)
    case Delete(p) => DeleteProject(db, p, now)
  }

  class Session {
    var order: seq<ProjectId>
    var projects: map<ProjectId, Project>
    var quotas: map<ProjectId, Quota>
    var namespaces: map<NamespaceKey, Namespace>
    var nodes: map<ClusterId, seq<Node>>

    function Tables(): Db
      reads this
    {
      Db(order, projects, quotas, namespaces, nodes)
    }

    // ----- repository

    method UpdateQuotaStatus(pid: ProjectId, status: QuotaStatus, reason: Option<Reason>, at: Time)
      requires pid in quotas
      modifies this`quotas
      ensures quotas == old(quotas)[pid := Restated(old(quotas[pid]), status, reason, at)]
    {
      var quota := quotas[pid].(status := status);
      if reason.Some? {
        quota := quota.(reason := reason);
      }
      quotas := quotas[pid := quota.(updatedAt := at)];
    }

    method UpdateQuota(pid: ProjectId, figures: Resources, status: QuotaStatus, reason: Option<Reason>, at: Time)
      requires pid in quotas
      modifies this`quotas
      ensures quotas == old(quotas)[pid := Restated(old(quotas[pid]), status, reason, at).(figures := figures)]
    {
      quotas := quotas[pid := quotas[pid].(figures := figures)];
      UpdateQuotaStatus(pid, status, reason, at);
    }

    /** The namespace row of a project, looked up by project id and cluster. */
    method NamespaceOf(pid: ProjectId, c: ClusterId) returns (key: Option<NamespaceKey>)
      requires Structure(Tables())
      ensures key == if pid in projects && projects[pid].cluster == c then Some(KeyOf(projects[pid])) else None
    {
      assert pid in projects ==> Owned(Tables(), pid);
      assert forall k :: k in namespaces && namespaces[k].owner == Some(pid) ==> OwnerPresent(Tables(), k);
      if k :| k in namespaces && namespaces[k].owner == Some(pid) && k.cluster == c {
        return Some(k);
      }
      return None;
    }

    /** Removing a project takes its quota and its namespaces with it. */
    method RemoveProject(pid: ProjectId)
      modifies this`order, this`projects, this`quotas, this`namespaces
      ensures order == Without(old(order), {pid}) && projects == old(projects) - {pid} && quotas == old(quotas) - {pid}
      ensures namespaces == Unowned(old(namespaces), {pid})
    {
      order := Without(order, {pid});
      projects := projects - {pid};
      quotas := quotas - {pid};
      namespaces := map k | k in namespaces && namespaces[k].owner != Some(pid) :: namespaces[k];
    }

    // ----- project status

    /**
     * Recomputes a project from its components, or removes it when both are deleted. Its
     * quota and namespace are always found, so the branches that would fail the project
     * for a missing row are dead.
     */
    method UpdateProjectStatusFromComponents(pid: ProjectId)
      requires Structure(Tables()) && pid in projects
      modifies this`order, this`projects, this`quotas, this`namespaces
      ensures Tables() == Settled(old(Tables()), map[pid := old(quotas[pid])])
    {
      ghost var db := Tables();
      assert Owned(db, pid);
      var project := projects[pid];
      var key := NamespaceOf(pid, project.cluster);
      if key.None? || pid !in quotas {
        assert false;
      }
      var namespace, quota := namespaces[key.value], quotas[pid];
      SettledOne(db, pid);
      if project.status == ProjectStatus.Deleting && quota.status == QuotaStatus.Deleted
         && namespace.status == NamespaceStatus.Deleted {
        RemoveProject(pid);
      } else {
        projects := projects[pid := project.(status := Resolve(namespace.status, quota.status, project.status))];
      }
    }

    // ----- quota feedback

    /**
     * One row has been written since the tables equalled `Settled(db, done)`; reviewing
     * its project settles it too.
     */
    method ReviewWritten(ghost db: Db, ghost done: map<ProjectId, Quota>, pid: ProjectId)
      requires Structure(db) && Updates(db, done) && pid in db.projects && pid !in done && pid in quotas
      requires quotas[pid].cluster == db.quotas[pid].cluster
      requires var mid := Settled(db, done); Tables() == mid.(quotas := mid.quotas[pid := quotas[pid]])
      modifies this`order, this`projects, this`quotas, this`namespaces
      ensures Tables() == Settled(db, done[pid := old(quotas[pid])])
    {
      ghost var mid, q := Settled(db, done), quotas[pid];
      SettledViews(db, done);
      assert ViewOf(mid, pid) == ViewOf(db, pid);
      WriteThenReview(mid, pid, q);
      SettledOneMore(db, mid, done, pid, q);
      UpdateProjectStatusFromComponents(pid);
    }

    /** Quotas of the cluster last written no later than the snapshot, by project name. */
    method QuotasByProjectName(c: ClusterId, at: Time) returns (byName: map<string, ProjectId>)
      requires Structure(Tables())
      ensures Considered(Tables(), c, at, byName)
    {
      byName := map[];
      forall k | 0 <= k < |order| ensures order[k] in projects && order[k] in quotas {
        assert order[k] in order;
      }
      for i := 0 to |order|
        invariant forall k :: 0 <= k < i && projects[order[k]].cluster == c && quotas[order[k]].updatedAt <= at ==>
                    projects[order[k]].name in byName && byName[projects[order[k]].name] == order[k]
        invariant forall name :: name in byName ==>
                    var pid := byName[name];
                    && pid in projects && projects[pid].name == name
                    && projects[pid].cluster == c && quotas[pid].updatedAt <= at
      {
        var pid := order[i];
        if projects[pid].cluster == c && quotas[pid].updatedAt <= at {
          byName := byName[projects[pid].name := pid];
        }
      }
      forall pid | pid in projects && projects[pid].cluster == c && quotas[pid].updatedAt <= at
        ensures projects[pid].name in byName && byName[projects[pid].name] == pid
      {
        assert pid in order;
        var k :| 0 <= k < |order| && order[k] == pid;
      }
    }

    /** The verdict on a quota that the snapshot names. */
    method ApplyNamed(ghost db: Db, ghost all: map<ProjectId, Quota>, ghost done: set<ProjectId>, pid: ProjectId,
                      a: Allocation, at: Time)
      requires Planned(db, all) && pid !in done && Named(db, all, pid, a, at)
      requires Tables() == Partly(db, all, done)
      modifies this`order, this`projects, this`quotas, this`namespaces
      ensures Tables() == Partly(db, all, done + {pid})
    {
      StillUntouched(db, all, done, pid);
      RestrictOneMore(all, done, pid);
      if quotas[pid].figures == a.figures {
        if quotas[pid].status != QuotaStatus.Ready {
          UpdateQuotaStatus(pid, QuotaStatus.Ready, None, at);
          ReviewWritten(db, Restrict(all, done), pid);
        }
      } else {
        UpdateQuotaStatus(pid, QuotaStatus.Failed, Some(Mismatch(a.figures)), at);
        ReviewWritten(db, Restrict(all, done), pid);
      }
    }

    /** The verdict on an active quota that the snapshot does not name: emptied and failed. */
    method ApplyMissing(ghost db: Db, ghost all: map<ProjectId, Quota>, ghost done: set<ProjectId>, pid: ProjectId,
                        at: Time, ghost now: Time)
      requires Planned(db, all) && pid !in done
      requires Unnamed(db, all, pid, at, now) && db.quotas[pid].status.Active()
      requires Tables() == Partly(db, all, done)
      modifies this`order, this`projects, this`quotas, this`namespaces
      ensures Tables() == Partly(db, all, done + {pid})
    {
      StillUntouched(db, all, done, pid);
      RestrictOneMore(all, done, pid);
      var reason := if Telling(quotas[pid].reason) then quotas[pid].reason else Some(Missing(quotas[pid].figures));
      UpdateQuota(pid, ZERO, QuotaStatus.Failed, reason, at);
      ReviewWritten(db, Restrict(all, done), pid);
    }

    /** The verdict on a quota under deletion that the snapshot does not name: deleted. */
    method ApplyDeleted(ghost db: Db, ghost all: map<ProjectId, Quota>, ghost done: set<ProjectId>, pid: ProjectId,
                        ghost at: Time, now: Time)
      requires Planned(db, all) && pid !in done
      requires Unnamed(db, all, pid, at, now) && !db.quotas[pid].status.Active()
      requires Tables() == Partly(db, all, done)
      modifies this`order, this`projects, this`quotas, this`namespaces
      ensures Tables() == Partly(db, all, done + {pid})
    {
      StillUntouched(db, all, done, pid);
      RestrictOneMore(all, done, pid);
      UpdateQuotaStatus(pid, QuotaStatus.Deleted, Some(MarkedDeleted), now);
      ReviewWritten(db, Restrict(all, done), pid);
    }

    /** The pass over a snapshot's allocations: each pops the quota of its name. */
    method PopNamed(ghost db: Db, ghost all: map<ProjectId, Quota>, at: Time, allocations: seq<Allocation>,
                    start: map<string, ProjectId>)
      returns (byName: map<string, ProjectId>, ghost done: set<ProjectId>)
      requires Planned(db, all) && Tables() == Partly(db, all, {})
      requires Popping(start, start, {}) && AllNamed(db, all, start, allocations, at)
      modifies this`order, this`projects, this`quotas, this`namespaces
      ensures Tables() == Partly(db, all, done)
      ensures Popping(start, byName, done) && Unmet(byName.Keys, allocations, |allocations|)
    {
      byName, done := start, {};
      for i := 0 to |allocations|
        invariant Tables() == Partly(db, all, done)
        invariant Popping(start, byName, done) && Unmet(byName.Keys, allocations, i)
      {
        var a := allocations[i];
        PopStep(db, all, start, byName, done, allocations, i, at);
        if a.name != CATCH_ALL && a.name in byName {
          var pid := byName[a.name];
          byName := byName - {a.name};
          ApplyNamed(db, all, done, pid, a, at);
          done := done + {pid};
        }
      }
    }

    /** One quota that no allocation popped: an active one fails, another is put aside. */
    method FailOrPutAside(ghost db: Db, ghost all: map<ProjectId, Quota>, ghost done: set<ProjectId>,
                          toDelete: seq<ProjectId>,
                          byName: map<string, ProjectId>, ghost names: set<string>, name: string,
                          at: Time, ghost now: Time)
      returns (toDelete': seq<ProjectId>, ghost done': set<ProjectId>)
      requires Planned(db, all) && Tables() == Partly(db, all, done)
      requires Sorting(db, all, byName, names, toDelete, at, now, done) && name in names
      modifies this`order, this`projects, this`quotas, this`namespaces
      ensures Tables() == Partly(db, all, done') && done <= done'
      ensures Sorting(db, all, byName, names - {name}, toDelete', at, now, done')
    {
      var pid := byName[name];
      SortingStep(db, all, byName, names, toDelete, at, now, done, name);
      StillUntouched(db, all, done, pid);
      if quotas[pid].status.Active() {
        ApplyMissing(db, all, done, pid, at, now);
        return toDelete, done + {pid};
      }
      return toDelete + [pid], done;
    }

    /** The pass over the quotas no allocation popped, in whatever order. */
    method FailMissing(ghost db: Db, ghost all: map<ProjectId, Quota>, ghost popped: set<ProjectId>,
                       byName: map<string, ProjectId>,
                       at: Time, ghost now: Time)
      returns (toDelete: seq<ProjectId>, ghost done: set<ProjectId>)
      requires Planned(db, all) && Tables() == Partly(db, all, popped)
      requires Sorting(db, all, byName, byName.Keys, [], at, now, popped)
      modifies this`order, this`projects, this`quotas, this`namespaces
      ensures Tables() == Partly(db, all, done) && popped <= done
      ensures Sorting(db, all, byName, {}, toDelete, at, now, done)
    {
      toDelete, done := [], popped;
      var names := byName.Keys;
      while names != {}
        invariant popped <= done && Tables() == Partly(db, all, done)
        invariant Sorting(db, all, byName, names, toDelete, at, now, done)
        decreases |names|
      {
        var name := Any(names);
        toDelete, done := FailOrPutAside(db, all, done, toDelete, byName, names, name, at, now);
        names := names - {name};
      }
    }

    /** The pass over the quotas put aside: each is deleted, and its project removed when nothing else remains. */
    method DeleteUnnamed(ghost db: Db, ghost all: map<ProjectId, Quota>, ghost settled: set<ProjectId>,
                         toDelete: seq<ProjectId>,
                         ghost at: Time, now: Time)
      returns (ghost done: set<ProjectId>)
      requires Planned(db, all) && Tables() == Partly(db, all, settled)
      requires Waiting(db, all, toDelete, 0, at, now, settled)
      modifies this`order, this`projects, this`quotas, this`namespaces
      ensures Tables() == Partly(db, all, done) && settled <= done
      ensures Through(toDelete, |toDelete|, done)
    {
      done := settled;
      for i := 0 to |toDelete|
        invariant Tables() == Partly(db, all, done) && settled <= done
        invariant Through(toDelete, i, done)
        invariant Waiting(db, all, toDelete, i, at, now, done)
      {
        WaitingStep(db, all, toDelete, i, at, now, done);
        ApplyDeleted(db, all, done, toDelete[i], at, now);
        done := done + {toDelete[i]};
      }
    }

    /**
     * The reconciliation of a cluster's quotas with the snapshot it published: three
     * passes of pops, writes and removals amount to one verdict per quota.
     */
    method UpdateClusterQuotasFromAllocations(c: ClusterId, at: Time, allocations: seq<Allocation>, now: Time)
      requires Structure(Tables())
      modifies this`order, this`projects, this`quotas, this`namespaces
      ensures Tables() == OnQuotaSnapshot(old(Tables()), c, at, allocations, now)
    {
      ghost var db := Tables();
      ghost var all := Verdicts(db, c, at, allocations, now);
      VerdictsJudge(db, c, at, allocations, now);
      NothingYet(db, all);
      var start := QuotasByProjectName(c, at);
      JudgedNamed(db, all, c, at, allocations, now, start);
      var byName, popped := PopNamed(db, all, at, allocations, start);
      JudgedRest(db, all, c, at, allocations, now, start, byName, popped);
      var toDelete, settled := FailMissing(db, all, popped, byName, at, now);
      ghost var done := DeleteUnnamed(db, all, settled, toDelete, at, now);
      AllJudged(db, all, c, at, allocations, now, start, byName, popped, toDelete, settled, done);
      RestrictAll(all, done);
    }

    /** One project of the pass over pending quotas. */
    method FailOne(ghost db: Db, ghost all: map<ProjectId, Quota>, ghost done: set<ProjectId>, pid: ProjectId,
                   c: ClusterId, at: Time, reason: Option<Reason>)
      requires Planned(db, all) && pid in db.projects && pid !in done && Fails(db, all, pid, c, at, reason)
      requires Tables() == Partly(db, all, done)
      modifies this`order, this`projects, this`quotas, this`namespaces
      ensures Tables() == Partly(db, all, done + {pid})
    {
      StillUntouched(db, all, done, pid);
      RestrictOneMore(all, done, pid);
      if projects[pid].cluster == c && quotas[pid].status == QuotaStatus.Pending && quotas[pid].updatedAt < at {
        UpdateQuotaStatus(pid, QuotaStatus.Failed, reason, at);
        ReviewWritten(db, Restrict(all, done), pid);
      }
    }

    /** The cluster failed to apply the last allocation: quotas still pending since before then fail. */
    method UpdatePendingQuotasToFailed(c: ClusterId, at: Time, reason: Option<Reason>)
      requires Structure(Tables())
      modifies this`order, this`projects, this`quotas, this`namespaces
      ensures Tables() == OnQuotaFailure(old(Tables()), c, at, reason)
    {
      ghost var db := Tables();
      ghost var all := Failures(db, c, at, reason);
      FailuresFail(db, c, at, reason);
      ghost var done := {};
      var rows := order;
      NothingYet(db, all);
      for i := 0 to |rows|
        invariant Tables() == Partly(db, all, done)
        invariant FailedUpTo(db, all, rows, i, c, at, reason, done)
      {
        var pid := rows[i];
        FailedStep(db, all, rows, i, c, at, reason, done);
        StillUntouched(db, all, done, pid);
        FailOne(db, all, done, pid, c, at, reason);
        done := done + {pid};
      }
      FailedAll(db, all, rows, c, at, reason, done);
      RestrictAll(all, done);
    }

    // ----- namespace feedback

    /** The namespace of a project takes a status; then its project is reviewed or removed. */
    method UpdateNamespaceStatus(pid: ProjectId, key: NamespaceKey, status: NamespaceStatus)
      requires Structure(Tables()) && pid in projects && key == KeyOf(projects[pid])
      modifies this`order, this`projects, this`quotas, this`namespaces
      ensures Tables() == NamespaceSettled(old(Tables()), pid, status)
    {
      ghost var db := Tables();
      NamespaceWriteStructure(db, pid, status);
      assert Owned(db, pid);
      namespaces := namespaces[key := namespaces[key].(status := status)];
      assert Tables() == WriteNamespace(db, key, Namespace(Some(pid), status));
      UpdateProjectStatusFromComponents(pid);
    }

    method UpdateProjectNamespaceStatus(c: ClusterId, pid: ProjectId, status: NamespaceStatus) returns (r: Result<()>)
      requires Structure(Tables())
      modifies this`order, this`projects, this`quotas, this`namespaces
      ensures Matches(r, OnNamespaceState(old(Tables()), c, pid, status))
      ensures r.Ok? ==> Tables() == OnNamespaceState(old(Tables()), c, pid, status).value
    {
      var key := NamespaceOf(pid, c);
      if key.None? {
        return Err(NotFound);
      }
      UpdateNamespaceStatus(pid, key.value, status);
      return Ok(());
    }

    method HandleNamespaceDeleted(c: ClusterId, name: string) returns (r: Result<()>)
      requires Structure(Tables())
      modifies this`order, this`projects, this`quotas, this`namespaces
      ensures Matches(r, OnNamespaceGone(old(Tables()), c, name))
      ensures r.Ok? ==> Tables() == OnNamespaceGone(old(Tables()), c, name).value
    {
      var key := NamespaceKey(c, name);
      if key !in namespaces {
        return Err(NotFound);
      }
      if namespaces[key].owner.Some? {
        assert OwnerPresent(Tables(), key);
        UpdateNamespaceStatus(namespaces[key].owner.value, key, NamespaceStatus.Deleted);
      } else {
        namespaces := namespaces - {key};
      }
      return Ok(());
    }

    method RecordUnmanagedNamespace(c: ClusterId, name: string, status: NamespaceStatus)
      modifies this`namespaces
      ensures Tables() == OnUnmanagedNamespace(old(Tables()), c, name, status)
    {
      var key := NamespaceKey(c, name);
      if key in namespaces && namespaces[key].owner.None? {
        namespaces := namespaces[key := namespaces[key].(status := status)];
      } else if key !in namespaces {
        namespaces := namespaces[key := Namespace(None, status)];
      }
    }

    // ----- nodes

    /** Changed node rows are written and the allocations sent again. */
    method WriteNodes(c: ClusterId, rows: seq<Node>, changed: bool, sender: MessageSender)
      requires changed == (rows != NodesOf(Tables(), c))
      modifies this`nodes, sender
      ensures Tables() == OnNodes(old(Tables()), c, rows).0
      ensures sender.messages == old(sender.messages) + OnNodes(old(Tables()), c, rows).1
    {
      if changed {
        nodes := nodes[c := rows];
        sender.Enqueue(AllocationMessage(Tables(), c));
      }
    }

    method UpdateClusterNodes(c: ClusterId, at: Time, reports: seq<NodeReport>, sender: MessageSender)
      returns (r: Result<()>)
      requires Nodes.UniqueRows(NodesOf(Tables(), c))
      modifies this`nodes, sender
      ensures r == if Nodes.UniqueReports(reports) then Ok(()) else Err(Conflict)
      ensures r.Ok? ==> var t := OnNodes(old(Tables()), c, Nodes.Synced(NodesOf(old(Tables()), c), reports, at));
                        Tables() == t.0 && sender.messages == old(sender.messages) + t.1
    {
      var synced := Nodes.SyncRows(NodesOf(Tables(), c), reports, at);
      if synced.Err? {
        return Err(Conflict);
      }
      WriteNodes(c, synced.value.0, synced.value.1, sender);
      return Ok(());
    }

    method UpdateClusterNode(c: ClusterId, at: Time, report: NodeReport, sender: MessageSender) returns (r: Result<()>)
      requires Nodes.UniqueRows(NodesOf(Tables(), c))
      modifies this`nodes, sender
      ensures Matches(r, Nodes.Updated(NodesOf(old(Tables()), c), report, at))
      ensures r.Ok? ==> var t := OnNodes(old(Tables()), c, Nodes.Updated(NodesOf(old(Tables()), c), report, at).value);
                        Tables() == t.0 && sender.messages == old(sender.messages) + t.1
    {
      var updated := Nodes.UpdateRow(NodesOf(Tables(), c), report, at);
      if updated.Err? {
        return Err(Conflict);
      }
      WriteNodes(c, updated.value.0, updated.value.1, sender);
      return Ok(());
    }

    method DeleteClusterNode(c: ClusterId, name: string, sender: MessageSender)
      requires Nodes.UniqueRows(NodesOf(Tables(), c))
      modifies this`nodes, sender
      ensures var t := OnNodes(old(Tables()), c, Nodes.Removed(NodesOf(old(Tables()), c), name));
              Tables() == t.0 && sender.messages == old(sender.messages) + t.1
    {
      var rows := NodesOf(Tables(), c);
      var i := Nodes.FindRow(rows, name);
      Nodes.RemovedRows(rows, name);
      if i < |rows| {
        WriteNodes(c, Nodes.Removed(rows, name), true, sender);
      }
    }

    // ----- requests

    method CreateNewProject(pid: ProjectId, c: ClusterId, healthy: bool, name: string, figures: Resources, now: Time,
                            sender: MessageSender) returns (r: Result<()>)
      modifies this`order, this`projects, this`quotas, this`namespaces, sender
      ensures Matches(r, CreateProject(old(Tables()), pid, c, healthy, name, figures, now))
      ensures r.Ok? ==> var t := CreateProject(old(Tables()), pid, c, healthy, name, figures, now).value;
                        Tables() == t.0 && sender.messages == old(sender.messages) + t.1
    {
      ghost var db := Tables();
      if !ValidName(name) { return Err(InvalidName); }
      if !healthy { return Err(Unhealthy); }
      if NameTaken(Tables(), name) { return Err(Conflict); }
      if NamespaceKey(c, name) in namespaces { return Err(Conflict); }
      if LiveProjects(Tables(), order, c) >= MAX_PROJECTS_PER_CLUSTER - 1 { return Err(TooManyProjects); }
      var errors := ValidateQuota(Allocated(Tables(), c), Available(Tables(), c), figures, None);
      order, projects := order + [pid], projects[pid := Project(name, c, ProjectStatus.Pending)];
      if errors != [] { return Err(QuotaExceeded); }
      quotas := quotas[pid := Quota(c, figures, QuotaStatus.Pending, None, now)];
      var allocations := AllocationMessage(Tables(), c);
      sender.Enqueue(allocations);
      namespaces := namespaces[NamespaceKey(c, name) := Namespace(Some(pid), NamespaceStatus.Pending)];
      sender.Enqueue(Outgoing.CreateNamespace(c, name, pid));
      assert Tables() == WithProject(db, pid, c, name, figures, now);
      SameTotals(Tables(), Db(order, projects, quotas, db.namespaces, nodes), c);
      return Ok(());
    }

    method UpdateProjectQuota(pid: ProjectId, figures: Resources, now: Time, sender: MessageSender)
      returns (r: Result<()>)
      requires Structure(Tables())
      modifies this`quotas, sender
      ensures Matches(r, EditQuota(old(Tables()), pid, figures, now))
      ensures r.Ok? ==> var t := EditQuota(old(Tables()), pid, figures, now).value;
                        Tables() == t.0 && sender.messages == old(sender.messages) + t.1
    {
      if pid !in projects { return Err(NotFound); }
      assert Owned(Tables(), pid);
      var c := projects[pid].cluster;
      if figures != quotas[pid].figures {
        var errors := ValidateQuota(Allocated(Tables(), c), Available(Tables(), c), figures, Some(quotas[pid].figures));
        if errors != [] { return Err(QuotaExceeded); }
        UpdateQuota(pid, figures, QuotaStatus.Pending, None, now);
        sender.Enqueue(AllocationMessage(Tables(), c));
      } else {
        UpdateQuota(pid, figures, QuotaStatus.Ready, None, now);
      }
      return Ok(());
    }

    method SubmitDeleteProject(pid: ProjectId, now: Time, sender: MessageSender) returns (r: Result<()>)
      requires Structure(Tables())
      modifies this`projects, this`quotas, this`namespaces, sender
      ensures Matches(r, DeleteProject(old(Tables()), pid, now))
      ensures r.Ok? ==> var t := DeleteProject(old(Tables()), pid, now).value;
                        Tables() == t.0 && sender.messages == old(sender.messages) + t.1
    {
      if pid !in projects { return Err(NotFound); }
      assert Owned(Tables(), pid);
      var project := projects[pid];
      if project.status == ProjectStatus.Deleting { return Err(Conflict); }
      var key := NamespaceOf(pid, project.cluster);
      UpdateQuotaStatus(pid, QuotaStatus.Deleting, None, now);
      sender.Enqueue(AllocationMessage(Tables(), project.cluster));
      namespaces := namespaces[key.value := namespaces[key.value].(status := NamespaceStatus.Terminating)];
      sender.Enqueue(Outgoing.DeleteNamespace(project.cluster, project.name, pid));
      projects := projects[pid := project.(status := ProjectStatus.Deleting)];
      return Ok(());
    }

    // ----- one transaction

    /**
     * The end of a transaction: commit, then flush, then success. A handler that raised or
     * a commit that fails puts the tables back and sends nothing; a broker that breaks
     * during the flush leaves the transaction committed and a prefix of its messages sent.
     */
    method Conclude(before: Db, raised: bool, sender: MessageSender, fault: Fault) returns (t: Trace)
      modifies this, sender
      ensures t.committed <==> !raised && !fault.commitFails
      ensures !t.committed ==> Tables() == before && t.onWire == [] && !t.acked
      ensures t.committed ==> Tables() == old(Tables()) && Sent(t, old(sender.messages), fault)
    {
      if raised || fault.commitFails {
        order, projects, quotas := before.order, before.projects, before.quotas;
        namespaces, nodes := before.namespaces, before.nodes;
        return Trace(false, [], false);
      }
      ghost var out := sender.messages;
      var wire := new Wire(fault.wireFails);
      var flushed := sender.Flush(wire);
      assert wire.delivered + sender.messages == out;
      return Trace(true, wire.delivered, flushed);
    }

    /** The handler of each message type. */
    method Dispatch(f: Feedback, now: Time, sender: MessageSender) returns (r: Result<()>)
      requires Structure(Tables()) && Nodes.UniqueRows(NodesOf(Tables(), f.cluster))
      modifies this, sender
      ensures Matches(r, Handle(old(Tables()), f, now))
      ensures r.Ok? ==> var t := Handle(old(Tables()), f, now).value;
                        Tables() == t.0 && sender.messages == old(sender.messages) + t.1
    {
      r := Ok(());
      match f {
        case QuotaSnapshot(c, at, allocations) => UpdateClusterQuotasFromAllocations(c, at, allocations, now);
        case QuotaFailure(c, at, reason) => UpdatePendingQuotasToFailed(c, at, reason);
        case NamespaceState(c, pid, state) => r := UpdateProjectNamespaceStatus(c, pid, state);
        case NamespaceGone(c, name) => r := HandleNamespaceDeleted(c, name);
        case UnmanagedNamespace(c, name, state) => RecordUnmanagedNamespace(c, name, state);
        case NodeList(c, at, reports) => r := UpdateClusterNodes(c, at, reports, sender);
        case NodeUpdate(c, at, report) => r := UpdateClusterNode(c, at, report, sender);
        case NodeDelete(c, name) => DeleteClusterNode(c, name, sender);
      }
    }

    /** One delivery of a message; it is acknowledged only after the commit and a full flush. */
    method ProcessMessage(f: Feedback, now: Time, fault: Fault) returns (t: Trace)
      requires Structure(Tables()) && Nodes.UniqueRows(NodesOf(Tables(), f.cluster))
      modifies this
      ensures t.committed <==> Handle(old(Tables()), f, now).Ok? && !fault.commitFails
      ensures !t.committed ==> Tables() == old(Tables()) && t.onWire == [] && !t.acked
      ensures t.committed ==>
                var (db', out) := Handle(old(Tables()), f, now).value; Tables() == db' && Sent(t, out, fault)
    {
      var sender := new MessageSender();
      var before := Tables();
      var handled := Dispatch(f, now, sender);
      t := Conclude(before, handled.Err?, sender, fault);
    }

    /** One request of a user; `pid` is the id a new project would get. */
    method ServeRequest(r: Request, pid: ProjectId, now: Time, fault: Fault) returns (t: Trace)
      requires Structure(Tables())
      modifies this
      ensures t.committed <==> Requested(old(Tables()), r, pid, now).Ok? && !fault.commitFails
      ensures !t.committed ==> Tables() == old(Tables()) && t.onWire == [] && !t.acked
      ensures t.committed ==>
                var (db', out) := Requested(old(Tables()), r, pid, now).value; Tables() == db' && Sent(t, out, fault)
    {
      var sender := new MessageSender();
      var before := Tables();
      var served: Result<()>;
      match r {
        case Create(c, healthy, name, figures) =>
          served := CreateNewProject(pid, c, healthy, name, figures, now, sender);
        case Edit(p, figures) => served := UpdateProjectQuota(p, figures, now, sender);
        case Delete(p) => served := SubmitDeleteProject(p, now, sender);
      }
      t := Conclude(before, served.Err?, sender, fault);
    }
  }
}
