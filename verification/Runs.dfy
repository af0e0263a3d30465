/** What holds in every run of the system. */
module Runs {
  import opened Domain
  import opened Capacity
  import opened Lifecycle
  import opened Consumer
  import opened Protocol
  import QueueConfig

  // ----- structure, zombies, deletion on evidence

  /**
   * In every reachable state each project has one quota row and one namespace row on its
   * own cluster, a quota is in deletion only under a project in deletion, and no project
   * is left behind with both its components deleted.
   */
  lemma ReachableShape(es: seq<Event>)
    ensures var db := Reached(es).db; forall pid :: pid in db.projects ==>
              && !ViewOf(db, pid).Finished()
              && (!ViewOf(db, pid).quota.status.Active() ==> db.projects[pid].status == ProjectStatus.Deleting)
              && (forall k :: k in db.namespaces && db.namespaces[k].owner == Some(pid)
                              <==> k == KeyOf(db.projects[pid]))
  {
    var s := Reached(es);
    forall pid | pid in s.db.projects
      ensures Sound(s, pid, ViewOf(s.db, pid))
      ensures forall k :: k in s.db.namespaces && s.db.namespaces[k].owner == Some(pid)
                          <==> k == KeyOf(s.db.projects[pid])
    {
      assert Owned(s.db, pid);
      forall k | k in s.db.namespaces && s.db.namespaces[k].owner == Some(pid) ensures k == KeyOf(s.db.projects[pid]) {
        assert OwnerPresent(s.db, k);
      }
    }
  }

  /** The namespace was seen or read to be gone, or, since deletion was requested, labelled for something else. */
  ghost predicate Sighted(s: System, pid: ProjectId, key: NamespaceKey)
    requires pid in s.marks
  {
    exists o :: o in s.seen
      && (Gone(o, key) || (o.Foreign? && o.key == key && o.project == pid && o.at >= s.marks[pid]))
  }

  /**
   * Closed-loop deletion: whenever a step of any run removes a project, deletion had been
   * requested, a quota snapshot stamped since then does not name the project, and its
   * namespace was seen or read to be gone, or, since the request, labelled for something
   * else.
   */
  lemma RemovalOnEvidence(es: seq<Event>, e: Event, pid: ProjectId)
    requires pid in Reached(es).db.projects && pid !in Step(Reached(es), e).db.projects
    ensures var s := Reached(es); var p := s.db.projects[pid];
            && p.status == ProjectStatus.Deleting && pid in s.marks
            && QuotaEvidence(s.seen, p, s.marks[pid])
            && Sighted(s, pid, KeyOf(p))
  {
    var s := Reached(es);
    StepInv(s, e);
    SightedFrom(s, pid, KeyOf(s.db.projects[pid]));
  }

  lemma SightedFrom(s: System, pid: ProjectId, key: NamespaceKey)
    requires pid in s.marks && NamespaceEvidence(s.seen, key, pid, 0)
    requires forall o :: o in s.seen && o.Foreign? ==> o.project in s.marks && o.at >= s.marks[o.project]
    ensures Sighted(s, pid, key)
  {
    var o :| o in s.seen && (Gone(o, key) || (o.Foreign? && o.project == pid && o.key == key)) && o.at >= 0;
    assert o.Foreign? ==> o.at >= s.marks[pid];
  }

  /** What a snapshot observation gives: the configuration there is, one there was, or nothing of one under deletion. */
  ghost predicate SnapshotTrue(s: System, e: Event, o: Observation)
    requires o.Snapshot?
  {
    match e
    case PublishSnapshot(c) =>
      c == o.cluster && c in s.configs && o.names == NamesIn(QueueConfig.ReadBack(s.configs[c]))
    case PublishLate(c, queues) =>
      c == o.cluster && (c, queues) in s.had && o.names == NamesIn(QueueConfig.ReadBack(queues))
    case ReleaseConfig(c, _) => c == o.cluster && c in s.configs && o.names == {}
    case _ => false
  }

  /** An observation is recorded only when it is true of the cluster, or of what a cache may still show. */
  lemma ObservationsTrue(s: System, e: Event, o: Observation)
    requires Inv(s) && o !in s.seen && o in Step(s, e).seen
    ensures o.at == s.now
    ensures o.Absent? ==> o.key !in Step(s, e).live
    ensures o.Departed? ==> o.key in s.left
    ensures o.Foreign? ==> o.key in s.live && s.live[o.key].tag != Some(o.project)
    ensures o.Snapshot? ==> SnapshotTrue(s, e, o)
  {
    assert !e.OnTables();
    ObservedInCluster(s, e, o);
  }

  lemma ObservedInCluster(s: System, e: Event, o: Observation)
    requires !e.OnTables() && o !in s.seen && o in ClusterStep(s, e).seen
    ensures o.at == s.now
    ensures o.Absent? ==> o.key !in ClusterStep(s, e).live
    ensures o.Departed? ==> o.key in s.left
    ensures o.Foreign? ==> o.key in s.live && s.live[o.key].tag != Some(o.project)
    ensures o.Snapshot? ==> SnapshotTrue(s, e, o)
  {
    if e.DropNamespace? && e.order in s.sent && e.order.DeleteNamespace? {
      ObservedByDrop(s, NamespaceKey(e.order.cluster, e.order.name), e.order.project, e.outcome, o);
    }
  }

  lemma ObservedByDrop(s: System, key: NamespaceKey, pid: ProjectId, outcome: DeleteOutcome, o: Observation)
    requires o !in s.seen && o in DropStep(s, key, pid, outcome).seen
    ensures o.at == s.now && !o.Snapshot? && !o.Departed?
    ensures o.Absent? ==> o.key !in DropStep(s, key, pid, outcome).live
    ensures o.Foreign? ==> o.key in s.live && s.live[o.key].tag != Some(o.project)
  {
  }

  /** A cache can show only what was: namespaces that left, and configurations the cluster had. */
  lemma CachesTrue(s: System, e: Event)
    requires Inv(s)
    ensures forall key :: key in Step(s, e).left && key !in s.left ==> key in s.live && key !in Step(s, e).live
    ensures forall c, queues :: (c, queues) in Step(s, e).had && (c, queues) !in s.had ==>
              c in Step(s, e).configs && Step(s, e).configs[c] == queues
  {
    if e.OnTables() {
      TablesKeepCluster(s, e);
    } else {
      LeftTrue(s, e);
      HadTrue(s, e);
    }
  }

  lemma LeftTrue(s: System, e: Event)
    requires !e.OnTables()
    ensures var s' := ClusterStep(s, e);
            forall key :: key in s'.left && key !in s.left ==> key in s.live && key !in s'.live
  {
  }

  lemma HadTrue(s: System, e: Event)
    requires !e.OnTables()
    ensures var s' := ClusterStep(s, e);
            forall c, queues :: (c, queues) in s'.had && (c, queues) !in s.had ==>
              c in s'.configs && s'.configs[c] == queues
  {
  }

  /**
   * The agent's status message reaches the control plane exactly when the configuration
   * has a cluster queue: without one it carries null, and the step has no effect.
   */
  lemma PublishesExactly(s: System, c: ClusterId)
    requires Inv(s)
    ensures var s' := Step(s, PublishSnapshot(c));
            if c in s.configs && s.configs[c] != [] then
              QuotaSnapshot(c, s.now, QueueConfig.ReadBack(s.configs[c])) in s'.feedback
            else s' == s
  {
  }

  lemma SnapshotNow(s: System, c: ClusterId)
    requires c in s.configs && s.configs[c] != []
    ensures ClusterStep(s, PublishSnapshot(c)) == SnapshotStep(s, c, QueueConfig.ReadBack(s.configs[c]))
  {
  }

  // ----- deletion is final

  /** The projects a run can still meet under this id. */
  lemma DeletingStep(s: System, e: Event, pid: ProjectId)
    requires Inv(s) && pid in s.marks
    ensures Inv(Step(s, e)) && pid in Step(s, e).marks
    ensures pid in Step(s, e).db.projects ==>
              pid in s.db.projects && Step(s, e).db.projects[pid].status == ProjectStatus.Deleting
  {
    StepInv(s, e);
    StepHistory(s, e);
    StepProjects(s, e);
    var s' := Step(s, e);
    assert pid in s.born && pid < s.nextId;
    if pid in s'.db.projects {
      assert Sound(s', pid, ViewOf(s'.db, pid));
    }
  }

  /** Once deletion is requested a project never takes another status, and once gone its id never returns. */
  lemma {:induction false} DeletingAbsorbing(s: System, es: seq<Event>, pid: ProjectId)
    requires Inv(s) && pid in s.marks
    ensures pid in Run(s, es).db.projects ==>
              pid in s.db.projects && Run(s, es).db.projects[pid].status == ProjectStatus.Deleting
    decreases es
  {
    if es == [] {
      if pid in s.db.projects { assert Sound(s, pid, ViewOf(s.db, pid)); }
    } else {
      DeletingStep(s, es[0], pid);
      DeletingAbsorbing(Step(s, es[0]), es[1..], pid);
    }
  }

  /** A project in deletion whose quota has left deletion. */
  ghost predicate Trapped(s: System, pid: ProjectId)
    requires Structure(s.db)
  {
    && pid in s.db.projects && s.db.projects[pid].status == ProjectStatus.Deleting
    && ViewOf(s.db, pid).quota.status.Active()
  }

  lemma TrapMessage(f: Feedback, pid: ProjectId, v: View, now: Time)
    requires v.project.status == ProjectStatus.Deleting && v.quota.status.Active()
    ensures !Ends(f, pid, v, now)
    ensures After(f, pid, v, now).project.status == ProjectStatus.Deleting
    ensures After(f, pid, v, now).quota.status.Active()
  {
  }

  lemma TrapMove(s: System, e: Event, pid: ProjectId, v: View)
    requires Structure(s.db) && v.project.status == ProjectStatus.Deleting && v.quota.status.Active()
    ensures !Closes(s, e, pid, v)
    ensures Moved(s, e, pid, v).project.status == ProjectStatus.Deleting && Moved(s, e, pid, v).quota.status.Active()
  {
    if e.Deliver? {
      TrapMessage(e.f, pid, v, s.now);
    }
  }

  lemma TrapStep(s: System, e: Event, pid: ProjectId)
    requires Inv(s) && Trapped(s, pid)
    ensures Inv(Step(s, e)) && Trapped(Step(s, e), pid)
  {
    StepInv(s, e);
    StepProjects(s, e);
    TrapMove(s, e, pid, ViewOf(s.db, pid));
    var s' := Step(s, e);
    assert pid in s'.db.projects;
    assert ViewOf(s'.db, pid) == Moved(s, e, pid, ViewOf(s.db, pid));
  }

  /** The trap: no run, whatever the cluster, the agent or the users do, ever removes such a project. */
  lemma {:induction false} TrappedForever(s: System, es: seq<Event>, pid: ProjectId)
    requires Inv(s) && Trapped(s, pid)
    ensures Trapped(Run(s, es), pid)
    decreases es
  {
    if es != [] {
      TrapStep(s, es[0], pid);
      TrappedForever(Step(s, es[0]), es[1..], pid);
    }
  }

  // ----- status agreement

  ghost predicate AllAgree(db: Db)
    requires Structure(db)
  {
    forall pid :: pid in db.projects ==> ViewOf(db, pid).Agrees()
  }

  /** A message that writes a component brings the project's status back in line with its components. */
  lemma FeedbackRestoresAgreement(f: Feedback, pid: ProjectId, v: View, now: Time)
    ensures Touched(f, pid, v, now).Some? ==> After(f, pid, v, now).Agrees()
    ensures v.Agrees() ==> After(f, pid, v, now).Agrees()
  {
  }

  lemma AgreementMove(s: System, e: Event, pid: ProjectId, v: View)
    requires Structure(s.db) && v.Agrees() && !e.RequestEdit?
    ensures Moved(s, e, pid, v).Agrees()
  {
    if e.Deliver? {
      FeedbackRestoresAgreement(e.f, pid, v, s.now);
    }
  }

  lemma AgreementStep(s: System, e: Event)
    requires Inv(s) && AllAgree(s.db) && !e.RequestEdit?
    ensures Inv(Step(s, e)) && AllAgree(Step(s, e).db)
  {
    StepInv(s, e);
    StepProjects(s, e);
    AgreementEffect(s, e, Step(s, e).db);
  }

  lemma AgreementEffect(s: System, e: Event, db': Db)
    requires Structure(s.db) && AllAgree(s.db) && !e.RequestEdit? && StepEffect(s, e, db')
    ensures AllAgree(db')
  {
    forall pid | pid in db'.projects ensures ViewOf(db', pid).Agrees() {
      if pid in s.db.projects {
        AgreementMove(s, e, pid, ViewOf(s.db, pid));
      }
    }
  }

  /** In every run without quota edits each project's status is the one its components call for. */
  lemma {:induction false} AgreementWithoutEdits(s: System, es: seq<Event>)
    requires Inv(s) && AllAgree(s.db) && forall e :: e in es ==> !e.RequestEdit?
    ensures AllAgree(Run(s, es).db)
    decreases es
  {
    if es != [] {
      assert es[0] in es;
      AgreementStep(s, es[0]);
      AgreementWithoutEdits(Step(s, es[0]), es[1..]);
    }
  }

  /** So outside deletion a project is READY exactly when its namespace is ACTIVE and its quota READY. */
  lemma ReadyExactly(s: System, es: seq<Event>, pid: ProjectId)
    requires Inv(s) && AllAgree(s.db) && forall e :: e in es ==> !e.RequestEdit?
    requires pid in Run(s, es).db.projects && Run(s, es).db.projects[pid].status != ProjectStatus.Deleting
    ensures var v := ViewOf(Run(s, es).db, pid);
            v.project.status == ProjectStatus.Ready
            <==> v.ns == NamespaceStatus.Active && v.quota.status == QuotaStatus.Ready
  {
    AgreementWithoutEdits(s, es);
    ReadyWhenBoth(ViewOf(Run(s, es).db, pid));
  }

  lemma ReadyWhenBoth(v: View)
    requires v.Agrees() && v.project.status != ProjectStatus.Deleting
    ensures v.project.status == ProjectStatus.Ready
       <==> v.ns == NamespaceStatus.Active && v.quota.status == QuotaStatus.Ready
  {
  }

  /**
   * Exactly when an accepted edit leaves the status in line: the project is under
   * deletion, the quota was READY and its figures stay or PENDING and they change, or the
   * namespace is neither active nor pending.
   */
  lemma EditKeepsAgreement(s: System, pid: ProjectId, figures: Resources)
    requires Inv(s) && EditQuota(s.db, pid, figures, s.now).Ok? && ViewOf(s.db, pid).Agrees()
    ensures var v := ViewOf(s.db, pid); var db' := EditQuota(s.db, pid, figures, s.now).value.0;
            Structure(db') &&
            (ViewOf(db', pid).Agrees()
             <==> || v.project.status == ProjectStatus.Deleting
                  || v.quota.status == (if figures == v.quota.figures then QuotaStatus.Ready else QuotaStatus.Pending)
                  || (v.ns != NamespaceStatus.Active && v.ns != NamespaceStatus.Pending))
  {
    EditViews(s.db, pid, figures, s.now);
    EditedAgrees(s, pid, ViewOf(s.db, pid), figures);
  }

  lemma EditedAgrees(s: System, pid: ProjectId, v: View, figures: Resources)
    requires Sound(s, pid, v) && v.Agrees()
    ensures v.(quota := Edited(v.quota, figures, s.now)).Agrees()
       <==> || v.project.status == ProjectStatus.Deleting
            || v.quota.status == (if figures == v.quota.figures then QuotaStatus.Ready else QuotaStatus.Pending)
            || (v.ns != NamespaceStatus.Active && v.ns != NamespaceStatus.Pending)
  {
  }

  // ----- which deletions can still finish

  /** A step seen from one project. */
  lemma StepOne(s: System, e: Event, pid: ProjectId, v: View)
    requires Inv(s) && pid in s.db.projects && ViewOf(s.db, pid) == v
    ensures var s' := Step(s, e);
            && Inv(s') && Sound(s, pid, v)
            && (pid in s'.db.projects <==> !Closes(s, e, pid, v))
            && (pid in s'.db.projects ==> ViewOf(s'.db, pid) == Moved(s, e, pid, v))
  {
    StepInv(s, e);
    assert Sound(s, pid, v) by { assert Projects(s); }
    assert StepEffect(s, e, Step(s, e).db) by { StepProjects(s, e); }
  }

  /** A delivery seen from one project. */
  lemma DeliverOne(s: System, s': System, pid: ProjectId, v: View, f: Feedback)
    requires Inv(s) && f in s.feedback && pid in s.db.projects && ViewOf(s.db, pid) == v && s' == Step(s, Deliver(f))
    ensures Inv(s') && Sound(s, pid, v)
    ensures pid in s'.db.projects <==> !Ends(f, pid, v, s.now)
    ensures pid in s'.db.projects ==> ViewOf(s'.db, pid) == After(f, pid, v, s.now)
  {
    StepInv(s, Deliver(f));
    assert Sound(s, pid, v) by { assert Projects(s); }
    assert StepEffect(s, Deliver(f), s'.db) by { StepProjects(s, Deliver(f)); }
    EffectOne(s, f, s'.db, pid, v);
  }

  lemma EffectOne(s: System, f: Feedback, db': Db, pid: ProjectId, v: View)
    requires Structure(s.db) && StepEffect(s, Deliver(f), db') && pid in s.db.projects && ViewOf(s.db, pid) == v
    requires f in s.feedback
    ensures pid in db'.projects <==> !Ends(f, pid, v, s.now)
    ensures pid in db'.projects ==> ViewOf(db', pid) == After(f, pid, v, s.now)
  {
    assert Closes(s, Deliver(f), pid, v) <==> Ends(f, pid, v, s.now);
    assert Moved(s, Deliver(f), pid, v) == After(f, pid, v, s.now);
  }

  lemma NamesAllocations(allocations: seq<Allocation>, name: string)
    requires ValidName(name)
    ensures FirstNamed(allocations, name).Some? <==> name in NamesIn(allocations)
  {
    FirstNamedFound(allocations, name);
  }

  /**
   * The race behind the trap: a snapshot taken after the deletion request that still
   * names the project springs it; a snapshot that does not name it never does.
   */
  lemma NamingSnapshotTraps(s: System, pid: ProjectId, f: Feedback)
    requires Inv(s) && f in s.feedback && f.QuotaSnapshot? && pid in s.db.projects
    requires s.db.projects[pid].status == ProjectStatus.Deleting && !ViewOf(s.db, pid).quota.status.Active()
    requires s.db.projects[pid].cluster == f.cluster && ViewOf(s.db, pid).quota.updatedAt <= f.at
    ensures Inv(Step(s, Deliver(f)))
    ensures Trapped(Step(s, Deliver(f)), pid) <==> s.db.projects[pid].name in NamesIn(f.allocations)
  {
    var v := ViewOf(s.db, pid);
    DeliverOne(s, Step(s, Deliver(f)), pid, v, f);
    NamesAllocations(f.allocations, v.project.name);
    TrapVerdict(f, pid, v, s.now);
  }

  lemma TrapVerdict(f: Feedback, pid: ProjectId, v: View, now: Time)
    requires f.QuotaSnapshot? && v.project.cluster == f.cluster && v.quota.updatedAt <= f.at
    requires v.project.status == ProjectStatus.Deleting && !v.quota.status.Active()
    ensures After(f, pid, v, now).project.status == ProjectStatus.Deleting
    ensures After(f, pid, v, now).quota.status.Active() <==> FirstNamed(f.allocations, v.project.name).Some?
    ensures Ends(f, pid, v, now) ==> FirstNamed(f.allocations, v.project.name).None?
    ensures FirstNamed(f.allocations, v.project.name).None? ==>
              After(f, pid, v, now).quota.status == QuotaStatus.Deleted
  {
  }

  lemma {:induction false} RunAppend(s: System, a: seq<Event>, b: seq<Event>)
    requires Inv(s)
    ensures Run(s, a + b) == Run(Run(s, a), b)
    decreases a
  {
    if a == [] {
      assert a + b == b;
    } else {
      assert (a + b)[0] == a[0] && (a + b)[1..] == a[1..] + b;
      StepInv(s, a[0]);
      RunAppend(Step(s, a[0]), a[1..], b);
    }
  }

  /** What was ordered and what was published stays so. */
  lemma {:induction false} RunKeepsMessages(s: System, es: seq<Event>)
    requires Inv(s)
    ensures s.sent <= Run(s, es).sent && s.feedback <= Run(s, es).feedback
    decreases es
  {
    if es != [] {
      StepInv(s, es[0]);
      MessagesKept(s, es[0]);
      RunKeepsMessages(Step(s, es[0]), es[1..]);
    }
  }

  /** A project that is still there has its name and its cluster. */
  lemma SameKey(s: System, s': System, pid: ProjectId)
    requires Inv(s) && Inv(s') && Extends(s, s') && pid in s.db.projects && pid in s'.db.projects
    ensures KeyOf(s'.db.projects[pid]) == KeyOf(s.db.projects[pid])
  {
    assert Sound(s, pid, ViewOf(s.db, pid)) && Sound(s', pid, ViewOf(s'.db, pid));
  }

  lemma {:induction false} RunExtends(s: System, es: seq<Event>)
    requires Inv(s)
    ensures Extends(s, Run(s, es))
    decreases es
  {
    if es != [] {
      StepInv(s, es[0]);
      StepHistory(s, es[0]);
      RunExtends(Step(s, es[0]), es[1..]);
    }
  }

  lemma RunOne(s: System, e: Event)
    requires Inv(s)
    ensures Inv(Step(s, e)) && Run(s, [e]) == Step(s, e)
  {
    StepInv(s, e);
    assert [e][1..] == [];
  }

  /** A reachable state's successors are reachable. */
  lemma ReachedNext(es: seq<Event>, s: System, e: Event)
    requires Reached(es) == s
    ensures Inv(s) && Inv(Step(s, e)) && Reached(es + [e]) == Step(s, e)
  {
    InitInv();
    RunOne(s, e);
    RunAppend(INIT, es, [e]);
  }

  lemma RunTwo(s: System, a: Event, b: Event)
    requires Inv(s)
    ensures Inv(Step(s, a)) && Run(s, [a, b]) == Step(Step(s, a), b)
  {
    StepInv(s, a);
    RunOne(Step(s, a), b);
    assert [a, b][1..] == [b];
  }

  lemma RunThree(s: System, a: Event, b: Event, c: Event)
    requires Inv(s)
    ensures Inv(Step(s, a)) && Inv(Step(Step(s, a), b))
    ensures Run(s, [a, b, c]) == Step(Step(Step(s, a), b), c)
  {
    StepInv(s, a);
    RunTwo(Step(s, a), b, c);
    assert [a, b, c][1..] == [b, c];
  }
}
