/** When a cluster is never promised more than it has. */
module CapacitySafety {
  import opened Domain
  import opened Capacity
  import opened Lifecycle
  import opened Consumer
  import opened Protocol

  /** No quota of the cluster has a negative figure; the request schema does not ask for this. */
  ghost predicate NonNegative(db: Db, c: ClusterId) {
    forall pid :: pid in db.quotas && db.quotas[pid].cluster == c ==> ZERO.Within(db.quotas[pid].figures)
  }

  /** An accepted snapshot that counts a quota under deletion in again. */
  predicate Revives(f: Feedback, v: View) {
    && f.QuotaSnapshot? && v.project.cluster == f.cluster && v.quota.updatedAt <= f.at
    && !v.quota.status.Active() && FirstNamed(f.allocations, v.project.name).Some?
  }

  /** An accepted snapshot that empties an active quota. */
  predicate Empties(f: Feedback, v: View) {
    && f.QuotaSnapshot? && v.project.cluster == f.cluster && v.quota.updatedAt <= f.at
    && v.quota.status.Active() && FirstNamed(f.allocations, v.project.name).None?
  }

  /**
   * What keeps a cluster within capacity: figures are not negative, edits touch active
   * quotas only, no accepted snapshot names a quota under deletion, ready nodes are not
   * lost.
   */
  datatype Guard = Sign | Activity | Revival | ReadyNodes

  ghost predicate On(db: Db, pid: ProjectId, c: ClusterId) {
    pid in db.projects && db.projects[pid].cluster == c
  }

  /** The event respects one guard; events of other clusters respect them all. */
  ghost predicate Respects(s: System, e: Event, c: ClusterId, g: Guard)
    requires Structure(s.db)
  {
    match g
    case Sign =>
      && (e.RequestCreate? && e.cluster == c ==> ZERO.Within(e.figures))
      && (e.RequestEdit? && On(s.db, e.project, c) ==> ZERO.Within(e.figures))
    case Activity => e.RequestEdit? && On(s.db, e.project, c) ==> ViewOf(s.db, e.project).quota.status.Active()
    case Revival =>
      e.Deliver? && e.f in s.feedback ==> forall pid :: On(s.db, pid, c) ==> !Revives(e.f, ViewOf(s.db, pid))
    case ReadyNodes =>
      e.Deliver? && e.f in s.feedback && Handle(s.db, e.f, s.now).Ok? ==>
        Available(s.db, c).Within(Available(Handle(s.db, e.f, s.now).value.0, c))
  }

  ghost predicate Guarded(s: System, e: Event, c: ClusterId)
    requires Structure(s.db)
  {
    && Respects(s, e, c, Sign) && Respects(s, e, c, Activity)
    && Respects(s, e, c, Revival) && Respects(s, e, c, ReadyNodes)
  }

  ghost predicate Safe(db: Db, c: ClusterId) {
    NonNegative(db, c) && WithinCapacity(db, c)
  }

  lemma WithinTransitive(a: Resources, b: Resources, c: Resources)
    requires a.Within(b) && b.Within(c)
    ensures a.Within(c)
  {
  }

  function QuotaWeight(q: Quota, c: ClusterId): Resources {
    if q.cluster == c && q.status.Active() then q.figures else ZERO
  }

  /** A message that revives nothing never raises what a project holds. */
  lemma WeightShrinks(f: Feedback, pid: ProjectId, v: View, now: Time, c: ClusterId)
    requires v.quota.cluster == v.project.cluster
    requires v.quota.cluster == c ==> ZERO.Within(v.quota.figures) && !Revives(f, v)
    ensures var q := After(f, pid, v, now).quota;
            q.cluster == v.quota.cluster && QuotaWeight(q, c).Within(QuotaWeight(v.quota, c))
    ensures v.quota.cluster == c ==> ZERO.Within(After(f, pid, v, now).quota.figures)
  {
  }

  lemma FeedbackShrinks(db: Db, f: Feedback, now: Time, db': Db, c: ClusterId)
    requires Structure(db) && NonNegative(db, c) && Effect(db, f, now, db')
    requires forall pid :: On(db, pid, c) ==> !Revives(f, ViewOf(db, pid))
    ensures NonNegative(db', c) && Allocated(db', c).Within(Allocated(db, c))
  {
    forall pid | pid in db.order
      ensures pid !in Ended(db, f, now) ==> Weight(db'.quotas, pid, c).Within(Weight(db.quotas, pid, c))
      ensures ZERO.Within(Weight(db.quotas, pid, c))
      ensures pid in db'.projects && db'.quotas[pid].cluster == c ==> ZERO.Within(db'.quotas[pid].figures)
    {
      ShrinksOne(db, f, now, db', pid, c);
    }
    forall pid | pid in db'.quotas ensures pid in db.order {}
    SumShrinks(db.quotas, db'.quotas, db.order, Ended(db, f, now), c);
  }

  lemma ShrinksOne(db: Db, f: Feedback, now: Time, db': Db, pid: ProjectId, c: ClusterId)
    requires Structure(db) && NonNegative(db, c) && Effect(db, f, now, db') && pid in db.projects
    requires On(db, pid, c) ==> !Revives(f, ViewOf(db, pid))
    ensures pid !in Ended(db, f, now) ==> Weight(db'.quotas, pid, c).Within(Weight(db.quotas, pid, c))
    ensures ZERO.Within(Weight(db.quotas, pid, c))
    ensures pid in db'.projects && db'.quotas[pid].cluster == c ==> ZERO.Within(db'.quotas[pid].figures)
  {
    assert Owned(db, pid);
    WeightShrinks(f, pid, ViewOf(db, pid), now, c);
    if pid in db'.projects {
      assert ViewOf(db', pid) == After(f, pid, ViewOf(db, pid), now);
    }
  }

  /**
   * What an accepted edit does to the total, for every quota: the check subtracts the
   * old figures even when the quota is under deletion and was not counted, and an edit
   * that changes no figure skips the check; both bring the quota back into the total.
   */
  lemma EditAllocated(db: Db, pid: ProjectId, figures: Resources, now: Time)
    requires Structure(db) && EditQuota(db, pid, figures, now).Ok?
    ensures var q := ViewOf(db, pid).quota; var c := q.cluster;
            && Allocated(EditQuota(db, pid, figures, now).value.0, c)
               == Allocated(db, c).Minus(if q.status.Active() then q.figures else ZERO).Plus(figures)
            && (figures != q.figures ==> Allocated(db, c).Minus(q.figures).Plus(figures).Within(Available(db, c)))
    ensures forall c :: c != ViewOf(db, pid).quota.cluster ==>
              Allocated(EditQuota(db, pid, figures, now).value.0, c) == Allocated(db, c)
  {
    assert Owned(db, pid);
    var q, db' := db.quotas[pid], EditQuota(db, pid, figures, now).value.0;
    EditedTotals(db, db', pid, Edited(q, figures, now));
  }

  lemma EditedTotals(db: Db, db': Db, pid: ProjectId, q': Quota)
    requires Distinct(db.order) && pid in db.order && pid in db.quotas && q'.cluster == db.quotas[pid].cluster
    requires q'.status.Active()
    requires db' == db.(quotas := db.quotas[pid := q'])
    ensures var q := db.quotas[pid];
            Allocated(db', q.cluster)
            == Allocated(db, q.cluster).Minus(if q.status.Active() then q.figures else ZERO).Plus(q'.figures)
    ensures forall c :: c != db.quotas[pid].cluster ==> Allocated(db', c) == Allocated(db, c)
  {
    SumReplaced(db.quotas, db'.quotas, db.order, pid, q'.cluster);
    forall c | c != q'.cluster ensures Allocated(db', c) == Allocated(db, c) {
      SumAgrees(db.quotas, db'.quotas, db.order, c);
    }
  }

  lemma CreateSafe(db: Db, pid: ProjectId, c: ClusterId, name: string, figures: Resources, now: Time, other: ClusterId)
    requires Structure(db) && pid !in db.projects && Safe(db, other) && (c == other ==> ZERO.Within(figures))
    requires Allocated(db, c).Plus(figures).Within(Available(db, c))
    ensures Safe(WithProject(db, pid, c, name, figures, now), other)
  {
    var q := Quota(c, figures, QuotaStatus.Pending, None, now);
    CreatedSafe(db, WithProject(db, pid, c, name, figures, now), pid, q, other);
  }

  lemma CreatedSafe(db: Db, db': Db, pid: ProjectId, q: Quota, other: ClusterId)
    requires pid !in db.order && db'.quotas == db.quotas[pid := q] && db'.order == db.order + [pid]
    requires db'.nodes == db.nodes
    requires Safe(db, other) && (q.cluster == other ==> ZERO.Within(q.figures))
    requires Allocated(db, q.cluster).Plus(q.figures).Within(Available(db, q.cluster))
    ensures Safe(db', other)
  {
    CreatedTotals(db, db', pid, other);
    SameNodes(db, db', other);
    AddedWithin(Allocated(db, other), Allocated(db', other), Weight(db'.quotas, pid, other), Available(db, other));
  }

  lemma CreatedTotals(db: Db, db': Db, pid: ProjectId, c: ClusterId)
    requires pid !in db.order && db'.order == db.order + [pid]
    requires forall x :: x != pid && x in db.quotas ==> x in db'.quotas && db'.quotas[x] == db.quotas[x]
    requires forall x :: x != pid && x in db'.quotas ==> x in db.quotas
    ensures Allocated(db', c) == Allocated(db, c).Plus(Weight(db'.quotas, pid, c))
  {
    SumAppend(db'.quotas, db.order, pid, c);
    SumAgrees(db.quotas, db'.quotas, db.order, c);
  }

  lemma SameNodes(db: Db, db': Db, c: ClusterId)
    requires db'.nodes == db.nodes
    ensures Available(db', c) == Available(db, c)
  {
  }

  lemma AddedWithin(held: Resources, now: Resources, added: Resources, available: Resources)
    requires now == held.Plus(added) && held.Within(available) && (added == ZERO || held.Plus(added).Within(available))
    ensures now.Within(available)
  {
  }

  lemma RewrittenNonNegative(db: Db, db': Db, pid: ProjectId, q: Quota, c: ClusterId)
    requires NonNegative(db, c) && db'.quotas == db.quotas[pid := q] && (q.cluster == c ==> ZERO.Within(q.figures))
    ensures NonNegative(db', c)
  {
  }

  /** An edit of an active quota keeps every cluster within capacity. */
  lemma EditWithin(db: Db, pid: ProjectId, figures: Resources, now: Time, c: ClusterId)
    requires Structure(db) && WithinCapacity(db, c) && EditQuota(db, pid, figures, now).Ok?
    requires db.projects[pid].cluster == c ==> ViewOf(db, pid).quota.status.Active()
    ensures WithinCapacity(EditQuota(db, pid, figures, now).value.0, c)
  {
    assert Owned(db, pid);
    if c == db.projects[pid].cluster {
      EditWithinExactly(db, pid, figures, now);
    } else {
      EditElsewhere(db, pid, figures, now, c);
    }
  }

  lemma EditElsewhere(db: Db, pid: ProjectId, figures: Resources, now: Time, c: ClusterId)
    requires Structure(db) && EditQuota(db, pid, figures, now).Ok? && db.projects[pid].cluster != c
    ensures var db' := EditQuota(db, pid, figures, now).value.0;
            Allocated(db', c) == Allocated(db, c) && Available(db', c) == Available(db, c)
  {
    assert Owned(db, pid);
    EditAllocated(db, pid, figures, now);
    SameNodes(db, EditQuota(db, pid, figures, now).value.0, c);
  }

  lemma EditSafe(db: Db, pid: ProjectId, figures: Resources, now: Time, c: ClusterId)
    requires Structure(db) && Safe(db, c) && EditQuota(db, pid, figures, now).Ok?
    requires db.projects[pid].cluster == c ==> ZERO.Within(figures) && ViewOf(db, pid).quota.status.Active()
    ensures Safe(EditQuota(db, pid, figures, now).value.0, c)
  {
    assert Owned(db, pid);
    EditWithin(db, pid, figures, now, c);
    RewrittenNonNegative(db, EditQuota(db, pid, figures, now).value.0, pid,
                         Edited(ViewOf(db, pid).quota, figures, now), c);
  }

  /** A deletion takes the project's figures out of the total of its cluster, and touches no other. */
  lemma DeleteAllocated(db: Db, pid: ProjectId, now: Time, c: ClusterId)
    requires Structure(db) && DeleteProject(db, pid, now).Ok?
    ensures var db' := DeleteProject(db, pid, now).value.0;
            && Allocated(db', c) == Allocated(db, c).Minus(Weight(db.quotas, pid, c))
            && Available(db', c) == Available(db, c)
  {
    assert pid in db.order;
    var q := Restated(ViewOf(db, pid).quota, QuotaStatus.Deleting, None, now);
    ReleasedTotals(db, DeleteProject(db, pid, now).value.0, pid, q, c);
  }

  lemma ReleasedTotals(db: Db, db': Db, pid: ProjectId, q: Quota, c: ClusterId)
    requires Distinct(db.order) && pid in db.order && pid in db.quotas && !q.status.Active()
    requires db'.quotas == db.quotas[pid := q] && db'.order == db.order && db'.nodes == db.nodes
    ensures Allocated(db', c) == Allocated(db, c).Minus(Weight(db.quotas, pid, c))
    ensures Available(db', c) == Available(db, c)
  {
    SumReplaced(db.quotas, db'.quotas, db.order, pid, c);
    SameNodes(db, db', c);
    NothingAdded(Allocated(db', c), Allocated(db, c).Minus(Weight(db.quotas, pid, c)), Weight(db'.quotas, pid, c));
  }

  lemma NothingAdded(total: Resources, rest: Resources, added: Resources)
    requires total == rest.Plus(added) && added == ZERO
    ensures total == rest
  {
  }

  lemma DeleteSafe(db: Db, pid: ProjectId, now: Time, c: ClusterId)
    requires Structure(db) && Safe(db, c) && DeleteProject(db, pid, now).Ok?
    ensures Safe(DeleteProject(db, pid, now).value.0, c)
  {
    assert Owned(db, pid);
    DeleteAllocated(db, pid, now, c);
    RewrittenNonNegative(db, DeleteProject(db, pid, now).value.0, pid,
                         Restated(db.quotas[pid], QuotaStatus.Deleting, None, now), c);
    LessWithin(Allocated(db, c), Weight(db.quotas, pid, c), Available(db, c));
  }

  lemma LessWithin(held: Resources, freed: Resources, available: Resources)
    requires held.Within(available) && ZERO.Within(freed)
    ensures held.Minus(freed).Within(available)
  {
  }

  lemma EffectSafe(db: Db, f: Feedback, now: Time, db': Db, c: ClusterId)
    requires Structure(db) && Safe(db, c) && Effect(db, f, now, db') && Available(db, c).Within(Available(db', c))
    requires forall pid :: On(db, pid, c) ==> !Revives(f, ViewOf(db, pid))
    ensures Safe(db', c)
  {
    FeedbackShrinks(db, f, now, db', c);
    WithinTransitive(Allocated(db', c), Allocated(db, c), Available(db, c));
    WithinTransitive(Allocated(db', c), Available(db, c), Available(db', c));
  }

  lemma DeliverSafe(s: System, f: Feedback, c: ClusterId)
    requires Inv(s) && Safe(s.db, c) && Guarded(s, Deliver(f), c)
    ensures Safe(Step(s, Deliver(f)).db, c)
  {
    DeliverStep(s, f);
    if f in s.feedback && Handle(s.db, f, s.now).Ok? {
      HandleEffect(s.db, f, s.now);
      EffectSafe(s.db, f, s.now, Handle(s.db, f, s.now).value.0, c);
    }
  }

  lemma CreateStepSafe(s: System, e: Event, c: ClusterId)
    requires Inv(s) && e.RequestCreate? && Safe(s.db, c) && Respects(s, e, c, Sign)
    ensures Safe(Step(s, e).db, c)
  {
    if CreateProject(s.db, s.nextId, e.cluster, e.healthy, e.name, e.figures, s.now).Ok? {
      FreshId(s);
      CreateSafe(s.db, s.nextId, e.cluster, e.name, e.figures, s.now, c);
    }
  }

  lemma EditStepSafe(s: System, e: Event, c: ClusterId)
    requires Inv(s) && e.RequestEdit? && Safe(s.db, c) && Respects(s, e, c, Sign) && Respects(s, e, c, Activity)
    ensures Safe(Step(s, e).db, c)
  {
    if EditQuota(s.db, e.project, e.figures, s.now).Ok? {
      EditSafe(s.db, e.project, e.figures, s.now, c);
    }
  }

  lemma DeleteStepSafe(s: System, e: Event, c: ClusterId)
    requires Inv(s) && e.RequestDelete? && Safe(s.db, c)
    ensures Safe(Step(s, e).db, c)
  {
    if DeleteProject(s.db, e.project, s.now).Ok? {
      DeleteSafe(s.db, e.project, s.now, c);
    }
  }

  lemma CapacityStep(s: System, e: Event, c: ClusterId)
    requires Inv(s) && Safe(s.db, c) && Guarded(s, e, c)
    ensures Safe(Step(s, e).db, c)
  {
    if e.RequestCreate? {
      CreateStepSafe(s, e, c);
    } else if e.RequestEdit? {
      EditStepSafe(s, e, c);
    } else if e.RequestDelete? {
      DeleteStepSafe(s, e, c);
    } else if e.Deliver? {
      DeliverSafe(s, e.f, c);
    } else {
      ClusterInv(s, e);
    }
  }

  ghost predicate GuardedRun(s: System, es: seq<Event>, c: ClusterId)
    requires Inv(s)
    decreases es
  {
    es == [] || (
      StepInv(s, es[0]);
      Guarded(s, es[0], c) && GuardedRun(Step(s, es[0]), es[1..], c))
  }

  /** Capacity safety: every guarded run keeps the cluster within capacity in all four dimensions. */
  lemma {:induction false} CapacityOverRuns(s: System, es: seq<Event>, c: ClusterId)
    requires Inv(s) && Safe(s.db, c) && GuardedRun(s, es, c)
    ensures Safe(Run(s, es).db, c)
    decreases es
  {
    if es != [] {
      StepInv(s, es[0]);
      CapacityStep(s, es[0], c);
      CapacityOverRuns(Step(s, es[0]), es[1..], c);
    }
  }

  // ----- exact conditions

  /**
   * Exactly when an accepted edit stays within capacity: always for an active quota whose
   * figures change, and for a quota under deletion only if its new figures fit beside
   * everything already counted, which nothing checks.
   */
  lemma EditWithinExactly(db: Db, pid: ProjectId, figures: Resources, now: Time)
    requires Structure(db) && EditQuota(db, pid, figures, now).Ok?
    ensures var q := ViewOf(db, pid).quota; var c := q.cluster;
            WithinCapacity(EditQuota(db, pid, figures, now).value.0, c)
            <==> if !q.status.Active() then Allocated(db, c).Plus(figures).Within(Available(db, c))
                 else figures != q.figures || WithinCapacity(db, c)
  {
    EditAllocated(db, pid, figures, now);
    var q, db' := ViewOf(db, pid).quota, EditQuota(db, pid, figures, now).value.0;
    var held := Allocated(db, q.cluster);
    SameNodes(db, db', q.cluster);
    if q.status.Active() {
      ReplacedFigures(held, q.figures, figures);
    } else {
      ZeroMinus(held);
    }
  }

  lemma ReplacedFigures(held: Resources, was: Resources, now: Resources)
    ensures was == now ==> held.Minus(was).Plus(now) == held
  {
  }

  lemma ZeroMinus(held: Resources)
    ensures held.Minus(ZERO) == held
  {
  }

  /** The figures of the chosen quotas. */
  function SumChosen(quotas: map<ProjectId, Quota>, ids: seq<ProjectId>, chosen: set<ProjectId>): Resources {
    if ids == [] then ZERO else Chosen(quotas, ids[0], chosen).Plus(SumChosen(quotas, ids[1..], chosen))
  }

  function Chosen(quotas: map<ProjectId, Quota>, pid: ProjectId, chosen: set<ProjectId>): Resources {
    if pid in chosen && pid in quotas then quotas[pid].figures else ZERO
  }

  /** What was held, what came in and what went out make what is held now. */
  predicate Shift(was: Resources, now: Resources, up: Resources, down: Resources) {
    now == was.Plus(up).Minus(down)
  }

  lemma ShiftCases(r: Resources)
    ensures Shift(r, r, ZERO, ZERO) && Shift(ZERO, r, r, ZERO) && Shift(r, ZERO, ZERO, r)
  {
  }

  lemma ShiftPlus(a: Resources, a': Resources, u: Resources, d: Resources,
                  b: Resources, b': Resources, v: Resources, e: Resources)
    requires Shift(a, a', u, d) && Shift(b, b', v, e)
    ensures Shift(a.Plus(b), a'.Plus(b'), u.Plus(v), d.Plus(e))
  {
  }

  /** What a project holds after some rows were written and some removed. */
  function Left(q: map<ProjectId, Quota>, pid: ProjectId, gone: set<ProjectId>, c: ClusterId): Resources {
    if pid in gone then ZERO else Weight(q, pid, c)
  }

  /** A total changes by what comes in and what goes out. */
  lemma {:induction false} SumShifted(
      q: map<ProjectId, Quota>, q': map<ProjectId, Quota>, ids: seq<ProjectId>, gone: set<ProjectId>,
      up: set<ProjectId>, down: set<ProjectId>, c: ClusterId)
    requires forall x :: x in ids ==> Shift(Weight(q, x, c), Left(q', x, gone, c), Chosen(q, x, up), Chosen(q, x, down))
    ensures Shift(SumQuotas(q, ids, c), SumQuotas(q', Without(ids, gone), c),
                  SumChosen(q, ids, up), SumChosen(q, ids, down))
  {
    if ids == [] {
      ShiftCases(ZERO);
    } else {
      var x := ids[0];
      assert x in ids;
      SumShifted(q, q', ids[1..], gone, up, down, c);
      ShiftPlus(Weight(q, x, c), Left(q', x, gone, c), Chosen(q, x, up), Chosen(q, x, down),
                SumQuotas(q, ids[1..], c), SumQuotas(q', Without(ids[1..], gone), c),
                SumChosen(q, ids[1..], up), SumChosen(q, ids[1..], down));
      LeftOver(q', ids, gone, c);
    }
  }

  lemma LeftOver(q: map<ProjectId, Quota>, ids: seq<ProjectId>, gone: set<ProjectId>, c: ClusterId)
    requires ids != []
    ensures SumQuotas(q, Without(ids, gone), c)
         == Left(q, ids[0], gone, c).Plus(SumQuotas(q, Without(ids[1..], gone), c))
  {
    if ids[0] in gone {
      ZeroPlus(SumQuotas(q, Without(ids[1..], gone), c));
    } else {
      assert ([ids[0]] + Without(ids[1..], gone))[1..] == Without(ids[1..], gone);
    }
  }

  /** The quotas of cluster `c` that the message counts in again. */
  function Revived(db: Db, f: Feedback, c: ClusterId): set<ProjectId>
    requires Complete(db)
  {
    set pid | pid in db.projects && db.projects[pid].cluster == c && Revives(f, ViewOf(db, pid))
  }

  /** The quotas of cluster `c` that the message empties. */
  function Emptied(db: Db, f: Feedback, c: ClusterId): set<ProjectId>
    requires Complete(db)
  {
    set pid | pid in db.projects && db.projects[pid].cluster == c && Empties(f, ViewOf(db, pid))
  }

  /** What the project holds after a message: nothing once it has ended. */
  function WeightAfter(f: Feedback, pid: ProjectId, v: View, now: Time, c: ClusterId): Resources {
    if Ends(f, pid, v, now) then ZERO else QuotaWeight(After(f, pid, v, now).quota, c)
  }

  lemma WeightMoves(f: Feedback, pid: ProjectId, v: View, now: Time, c: ClusterId)
    requires v.quota.cluster == v.project.cluster
    ensures v.project.cluster == c && Revives(f, v) ==>
              QuotaWeight(v.quota, c) == ZERO && WeightAfter(f, pid, v, now, c) == v.quota.figures
    ensures v.project.cluster == c && Empties(f, v) ==>
              QuotaWeight(v.quota, c) == v.quota.figures && WeightAfter(f, pid, v, now, c) == ZERO
    ensures !(v.project.cluster == c && (Revives(f, v) || Empties(f, v))) ==>
              WeightAfter(f, pid, v, now, c) == QuotaWeight(v.quota, c)
  {
  }

  lemma ShiftBy(was: Resources, now: Resources, up: Resources, down: Resources, figures: Resources, enters: bool,
                leaves: bool)
    requires up == (if enters then figures else ZERO) && down == (if leaves then figures else ZERO)
    requires !(enters && leaves)
    requires enters ==> was == ZERO && now == figures
    requires leaves ==> was == figures && now == ZERO
    requires !enters && !leaves ==> now == was
    ensures Shift(was, now, up, down)
  {
    ShiftCases(figures);
    ShiftCases(was);
  }

  lemma LeftIsAfter(db: Db, f: Feedback, now: Time, db': Db, pid: ProjectId, c: ClusterId)
    requires Structure(db) && Effect(db, f, now, db') && pid in db.projects
    ensures Left(db'.quotas, pid, Ended(db, f, now), c) == WeightAfter(f, pid, ViewOf(db, pid), now, c)
  {
    if pid in db'.projects {
      assert ViewOf(db', pid) == After(f, pid, ViewOf(db, pid), now);
    }
  }

  lemma ChosenHere(db: Db, f: Feedback, pid: ProjectId, v: View, c: ClusterId)
    requires Structure(db) && pid in db.projects && ViewOf(db, pid) == v
    ensures var here := v.project.cluster == c;
            && Weight(db.quotas, pid, c) == QuotaWeight(v.quota, c)
            && Chosen(db.quotas, pid, Revived(db, f, c)) == (if here && Revives(f, v) then v.quota.figures else ZERO)
            && Chosen(db.quotas, pid, Emptied(db, f, c)) == (if here && Empties(f, v) then v.quota.figures else ZERO)
  {
    assert Owned(db, pid);
  }

  /** What a message does to the figures of one project. */
  lemma ShiftedView(f: Feedback, pid: ProjectId, v: View, now: Time, c: ClusterId)
    requires v.quota.cluster == v.project.cluster
    ensures var here := v.project.cluster == c;
            Shift(QuotaWeight(v.quota, c), WeightAfter(f, pid, v, now, c),
                  if here && Revives(f, v) then v.quota.figures else ZERO,
                  if here && Empties(f, v) then v.quota.figures else ZERO)
  {
    var here := v.project.cluster == c;
    WeightMoves(f, pid, v, now, c);
    ShiftBy(QuotaWeight(v.quota, c), WeightAfter(f, pid, v, now, c),
            if here && Revives(f, v) then v.quota.figures else ZERO,
            if here && Empties(f, v) then v.quota.figures else ZERO,
            v.quota.figures, here && Revives(f, v), here && Empties(f, v));
  }

  lemma ShiftedOne(db: Db, f: Feedback, now: Time, db': Db, pid: ProjectId, c: ClusterId)
    requires Structure(db) && Effect(db, f, now, db') && pid in db.projects
    ensures Shift(Weight(db.quotas, pid, c), Left(db'.quotas, pid, Ended(db, f, now), c),
                  Chosen(db.quotas, pid, Revived(db, f, c)), Chosen(db.quotas, pid, Emptied(db, f, c)))
  {
    assert Owned(db, pid);
    LeftIsAfter(db, f, now, db', pid, c);
    ChosenHere(db, f, pid, ViewOf(db, pid), c);
    ShiftedView(f, pid, ViewOf(db, pid), now, c);
  }

  /**
   * What any message does to a cluster's total, for every cluster: revived figures come
   * in, emptied ones go out, and nothing else changes it.
   */
  lemma FeedbackAllocated(db: Db, f: Feedback, now: Time, c: ClusterId)
    requires Structure(db) && Handle(db, f, now).Ok?
    ensures Allocated(Handle(db, f, now).value.0, c)
         == Allocated(db, c).Plus(SumChosen(db.quotas, db.order, Revived(db, f, c)))
                            .Minus(SumChosen(db.quotas, db.order, Emptied(db, f, c)))
  {
    var db' := Handle(db, f, now).value.0;
    HandleEffect(db, f, now);
    forall pid | pid in db.order
      ensures Shift(Weight(db.quotas, pid, c), Left(db'.quotas, pid, Ended(db, f, now), c),
                    Chosen(db.quotas, pid, Revived(db, f, c)), Chosen(db.quotas, pid, Emptied(db, f, c)))
    {
      ShiftedOne(db, f, now, db', pid, c);
    }
    SumShifted(db.quotas, db'.quotas, db.order, Ended(db, f, now), Revived(db, f, c), Emptied(db, f, c), c);
  }

  lemma SnapshotKeepsNodes(db: Db, f: Feedback, now: Time)
    requires Structure(db) && f.QuotaSnapshot?
    ensures Handle(db, f, now).value.0.nodes == db.nodes
  {
  }

  /** Exactly when a cluster is within capacity after a snapshot. */
  lemma SnapshotWithinExactly(db: Db, f: Feedback, now: Time, c: ClusterId)
    requires Structure(db) && f.QuotaSnapshot?
    ensures WithinCapacity(Handle(db, f, now).value.0, c)
       <==> Allocated(db, c).Plus(SumChosen(db.quotas, db.order, Revived(db, f, c)))
                            .Minus(SumChosen(db.quotas, db.order, Emptied(db, f, c))).Within(Available(db, c))
  {
    FeedbackAllocated(db, f, now, c);
    SnapshotKeepsNodes(db, f, now);
    SameNodes(db, Handle(db, f, now).value.0, c);
  }
}
