/** The agent's namespace handlers as they run, proved to be steps of the protocol. */
module Agent {
  import opened Domain
  import opened Protocol

  /** The namespaces of one cluster and what the agent has published, shared by its handlers. */
  class NamespaceHandler {
    const cluster: ClusterId
    var live: map<NamespaceKey, ClusterNamespace>
    var published: set<Feedback>

    /** The handler's view of a system state. */
    ghost predicate Shows(s: System)
      reads this
    {
      live == s.live && published == s.feedback
    }

    method PublishStatus(pid: ProjectId, state: NamespaceStatus)
      modifies this`published
      ensures published == old(published) + {NamespaceState(cluster, pid, state)}
    {
      published := published + {NamespaceState(cluster, pid, state)};
    }

    /** The label of the namespace must be exactly the expected project. */
    method ValidateProjectLabel(ns: ClusterNamespace, expected: ProjectId) returns (ok: bool)
      ensures ok <==> ns.tag == Some(expected)
    {
      match ns.tag {
        case None => ok := false;
        case Some(actual) => ok := actual == expected;
      }
    }

    method HandleCreate(ghost s: System, m: Outgoing, created: bool)
      requires Shows(s) && m in s.sent && m.CreateNamespace? && m.cluster == cluster
      modifies this
      ensures Shows(ClusterStep(s, MakeNamespace(m, created)))
    {
      var key := NamespaceKey(cluster, m.name);
      if created && key !in live {
        live := live[key := ClusterNamespace(Some(m.project), "Active", false, false)];
      } else {
        PublishStatus(m.project, NamespaceStatus.Failed);
      }
    }

    /**
     * Deleted is reported only when the namespace is not found, carries another label, or
     * vanishes between the check and the delete call.
     */
    method HandleDelete(ghost s: System, m: Outgoing, outcome: DeleteOutcome)
      requires Shows(s) && m in s.sent && m.DeleteNamespace? && m.cluster == cluster
      modifies this
      ensures Shows(ClusterStep(s, DropNamespace(m, outcome)))
    {
      var key := NamespaceKey(cluster, m.name);
      if key !in live {
        PublishStatus(m.project, NamespaceStatus.Deleted);
        return;
      }
      var matches := ValidateProjectLabel(live[key], m.project);
      if !matches {
        PublishStatus(m.project, NamespaceStatus.Deleted);
        return;
      }
      match outcome {
        case Accepted =>
          live := live[key := live[key].(terminating := true)];
        case Vanished =>
          live := live - {key};
          PublishStatus(m.project, NamespaceStatus.Deleted);
        case Refused =>
          PublishStatus(m.project, NamespaceStatus.DeleteFailed);
      }
    }

    method PublishState(name: string, tag: Option<ProjectId>, state: NamespaceStatus)
      modifies this`published
      ensures published == old(published) + {StateReport(NamespaceKey(cluster, name), tag, state)}
    {
      match tag {
        case None => published := published + {UnmanagedNamespace(cluster, name, state)};
        case Some(pid) => PublishStatus(pid, state);
      }
    }

    /** Under deletion TERMINATING is published and the finalizer removed, as long as it is there. */
    method HandleDeletion(name: string, patched: bool)
      requires NamespaceKey(cluster, name) in live
      modifies this`live, this`published
      ensures var key := NamespaceKey(cluster, name); var ns := old(live)[key];
              && live == (if ns.held && patched then old(live)[key := ns.(held := false)] else old(live))
              && published == old(published)
                   + if ns.held then {StateReport(key, ns.tag, NamespaceStatus.Terminating)} else {}
    {
      var key := NamespaceKey(cluster, name);
      if !live[key].held {
        return;
      }
      PublishState(name, live[key].tag, NamespaceStatus.Terminating);
      if patched {
        live := live[key := live[key].(held := false)];
      }
    }

    /**
     * The controller, run for a namespace that is or was there: not found means gone;
     * under deletion the finalizer is released; otherwise it is added first, and the
     * phase is reported only once it is there. The cache it reads may be `late`, and not
     * find a namespace that left and has since been created again.
     */
    method Reconcile(ghost s: System, name: string, patched: bool, late: bool)
      requires Shows(s) && (NamespaceKey(cluster, name) in s.live || NamespaceKey(cluster, name) in s.left)
      requires late ==> NamespaceKey(cluster, name) in s.left
      modifies this
      ensures var key := NamespaceKey(cluster, name);
              Shows(ClusterStep(s, if late then ReadLate(key) else Event.Reconcile(key, patched)))
    {
      var key := NamespaceKey(cluster, name);
      if late || key !in live {
        published := published + {NamespaceGone(cluster, name)};
        return;
      }
      if live[key].terminating {
        HandleDeletion(name, patched);
        return;
      }
      if !live[key].held {
        if !patched {
          return;
        }
        live := live[key := live[key].(held := true)];
      }
      assert live == s.live[key := s.live[key].(held := true)];
      PublishState(name, live[key].tag, MapPhase(live[key].phase));
    }
  }

  // ----- what the agent says

  /** One report on a namespace is published: for its project when it is labelled, else under its name. */
  predicate Says(s: System, s': System, key: NamespaceKey, tag: Option<ProjectId>, state: NamespaceStatus) {
    s'.feedback == s.feedback + {
      match tag
      case Some(pid) => NamespaceState(key.cluster, pid, state)
      case None => UnmanagedNamespace(key.cluster, key.name, state)}
  }

  /**
   * The controller on a namespace that is there. Outside deletion the finalizer is added
   * first, and then the phase reported, anything unknown as FAILED; under deletion
   * TERMINATING is reported while the finalizer is there, and then it is released. A patch
   * that fails leaves the finalizer as it was.
   */
  lemma ReconcileOutcome(s: System, key: NamespaceKey, patched: bool)
    requires key in s.live
    ensures var ns, s' := s.live[key], ClusterStep(s, Event.Reconcile(key, patched));
            && s'.live == s.live[key := s'.live[key]] && key in s'.live
            && s'.live[key] == ns.(held := if patched then !ns.terminating else ns.held)
            && if ns.terminating then
                 if ns.held then Says(s, s', key, ns.tag, NamespaceStatus.Terminating) else s'.feedback == s.feedback
               else if !ns.held && !patched then s'.feedback == s.feedback
               else if ns.phase == "Active" then Says(s, s', key, ns.tag, NamespaceStatus.Active)
               else if ns.phase == "Pending" then Says(s, s', key, ns.tag, NamespaceStatus.Pending)
               else if ns.phase == "Terminating" then Says(s, s', key, ns.tag, NamespaceStatus.Terminating)
               else Says(s, s', key, ns.tag, NamespaceStatus.Failed)
  {
  }

  /** The create handler: a new namespace labelled with the project, or a report that it FAILED. */
  lemma MakeOutcome(s: System, m: Outgoing, created: bool)
    requires m in s.sent && m.CreateNamespace?
    ensures var key := NamespaceKey(m.cluster, m.name); var s' := ClusterStep(s, MakeNamespace(m, created));
            if created && key !in s.live then
              s' == s.(live := s.live[key := ClusterNamespace(Some(m.project), "Active", false, false)])
            else s'.live == s.live && Says(s, s', key, Some(m.project), NamespaceStatus.Failed)
  {
  }

  /**
   * The delete handler: DELETED for a namespace that is not there, is labelled for
   * something else or vanishes under the call, DELETE_FAILED when the call is refused, and
   * no report when it is accepted: then the namespace is under deletion.
   */
  lemma DropOutcome(s: System, m: Outgoing, outcome: DeleteOutcome)
    requires m in s.sent && m.DeleteNamespace?
    ensures var key := NamespaceKey(m.cluster, m.name); var s' := ClusterStep(s, DropNamespace(m, outcome));
            if key !in s.live || s.live[key].tag != Some(m.project) then
              s'.live == s.live && Says(s, s', key, Some(m.project), NamespaceStatus.Deleted)
            else match outcome
              case Accepted => s'.feedback == s.feedback
                               && s'.live == s.live[key := s.live[key].(terminating := true)]
              case Vanished => s'.live == s.live - {key}
                               && Says(s, s', key, Some(m.project), NamespaceStatus.Deleted)
              case Refused => s'.live == s.live
                              && Says(s, s', key, Some(m.project), NamespaceStatus.DeleteFailed)
  {
  }

  /** Quota messages are stamped when they are published; a failure is passed on with its reason. */
  lemma QuotaMessages(s: System, e: Event, f: Feedback)
    requires !e.OnTables() && f in ClusterStep(s, e).feedback && f !in s.feedback
    ensures f.QuotaSnapshot? ==> f.at == s.now
    ensures f.QuotaFailure? ==> e.PublishFailure? && f == QuotaFailure(e.cluster, s.now, e.reason)
    ensures e.PublishFailure? ==> f.QuotaFailure?
  {
    if e.DropNamespace? && e.order in s.sent && e.order.DeleteNamespace? {
      DropSays(s, NamespaceKey(e.order.cluster, e.order.name), e.order.project, e.outcome, f);
    } else if e.Reconcile? {
      ReconcileSays(s, e.key, e.patched, f);
    }
  }
}
