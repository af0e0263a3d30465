/**
 * The admission webhooks that give every workload component a workload id and a
 * component id, and pass them on to the objects it owns.
 */
module Tracking {
  import opened Domain

  const QUEUE_NAME := "kueue.x-k8s.io/queue-name"
  const AUTO_DISCOVERED := "airm.silogen.ai/auto-discovered"
  const SUBMITTER := "airm.silogen.ai/submitter"

  /** Labels or annotations; an absent map behaves like an empty one. */
  type Strings = map<string, string>

  /** A missing key reads as the empty string. */
  function At(m: Strings, key: string): string {
    if key in m then m[key] else ""
  }

  /** Which labels a kind has to propagate to: none, a pod template, or a job template around a pod template. */
  datatype Shape = Pod | Bare | Templated | Cron

  /** The metadata a webhook reads and writes. `template` is a cron job's job template, else the pod template. */
  datatype Meta = Meta(labels: Strings, annotations: Strings, template: Strings, inner: Strings)

  datatype Operation = Create | Update

  /** An admission request; `fresh...` are the ids the generator would hand out, `previous` the stored labels. */
  datatype Request = Request(
    operation: Operation, previous: Option<Strings>, user: string, namespaceName: string, project: string,
    freshWorkload: string, freshComponent: string)
  {
    /** The generator never returns an empty id. */
    predicate Valid() {
      freshWorkload != "" && freshComponent != ""
    }
  }

  datatype Ids = Ids(workload: string, component: string) {
    predicate Complete() {
      workload != "" && component != ""
    }
  }

  function IdsOf(m: Strings): Ids {
    Ids(At(m, WORKLOAD_ID), At(m, COMPONENT_ID))
  }

  function Or(first: string, second: string): string {
    if first != "" then first else second
  }

  /** The ids an object arrives with: its own, or those of its previous version. */
  function Arriving(labels: Strings, previous: Option<Strings>): Ids {
    var stored := if previous.Some? then previous.value else map[];
    Ids(Or(At(labels, WORKLOAD_ID), At(stored, WORKLOAD_ID)), Or(At(labels, COMPONENT_ID), At(stored, COMPONENT_ID)))
  }

  function Identified(labels: Strings, req: Request): Strings {
    var ids := Arriving(labels, req.previous);
    labels[WORKLOAD_ID := Or(ids.workload, req.freshWorkload)][COMPONENT_ID := Or(ids.component, req.freshComponent)]
  }

  function InProject(labels: Strings, project: string): Strings {
    if At(labels, PROJECT_ID) != project then labels[PROJECT_ID := project] else labels
  }

  function Annotated(annotations: Strings, req: Request, existed: bool): Strings {
    if !existed && At(annotations, AUTO_DISCOVERED) != "true" then
      annotations[SUBMITTER := Or(At(annotations, SUBMITTER), req.user)][AUTO_DISCOVERED := "true"]
    else if req.operation == Create && existed then annotations[AUTO_DISCOVERED := "false"]
    else annotations
  }

  function WithIds(m: Strings, ids: Ids): Strings {
    m[WORKLOAD_ID := ids.workload][COMPONENT_ID := ids.component]
  }

  /** The object after its webhook. */
  function Admit(shape: Shape, m: Meta, req: Request): Meta {
    var queued := if shape.Pod? || shape.Templated? then m.labels[QUEUE_NAME := req.namespaceName] else m.labels;
    var labels := InProject(Identified(queued, req), req.project);
    Meta(labels,
         Annotated(m.annotations, req, Arriving(m.labels, req.previous).Complete()),
         if shape.Templated? then WithIds(m.template, IdsOf(labels))
         else if shape.Cron? then WithIds(m.template[QUEUE_NAME := req.namespaceName], IdsOf(labels))
         else m.template,
         if shape.Cron? then WithIds(m.inner, IdsOf(labels)) else m.inner)
  }

  // ----- one admission

  /** Ids never end up empty, ids an object has are never replaced, and templates carry the object's ids. */
  lemma AdmitIds(shape: Shape, m: Meta, req: Request)
    requires req.Valid()
    ensures var ids := IdsOf(Admit(shape, m, req).labels);
            && ids.Complete()
            && (At(m.labels, WORKLOAD_ID) != "" ==> ids.workload == At(m.labels, WORKLOAD_ID))
            && (At(m.labels, COMPONENT_ID) != "" ==> ids.component == At(m.labels, COMPONENT_ID))
            && (Arriving(m.labels, req.previous).Complete() ==> ids == Arriving(m.labels, req.previous))
            && (shape.Templated? || shape.Cron? ==> IdsOf(Admit(shape, m, req).template) == ids)
            && (shape.Cron? ==> IdsOf(Admit(shape, m, req).inner) == ids)
  {
  }

  /**
   * What the annotations say afterwards. An object that arrives without both ids, and is
   * not marked yet, is marked as auto-discovered, with the requesting user as submitter
   * unless it names one; one created with both ids is marked as not. Nothing else changes.
   */
  lemma AdmitAnnotates(shape: Shape, m: Meta, req: Request)
    ensures var before, after := m.annotations, Admit(shape, m, req).annotations;
            var ids := Arriving(m.labels, req.previous);
            var mark := "airm.silogen.ai/auto-discovered";
            && (forall key :: key != mark && key != "airm.silogen.ai/submitter" ==> SameAt(before, after, key))
            && if ids.workload != "" && ids.component != "" then
                 && SameAt(before, after, "airm.silogen.ai/submitter")
                 && if req.operation == Create then mark in after && after[mark] == "false"
                    else SameAt(before, after, mark)
               else if At(before, mark) == "true" then after == before
               else
                 && mark in after && after[mark] == "true"
                 && At(after, "airm.silogen.ai/submitter")
                    == if At(before, "airm.silogen.ai/submitter") == "" then req.user
                       else At(before, "airm.silogen.ai/submitter")
  {
  }

  /** The key is missing from both or holds the same in both. */
  predicate SameAt(before: Strings, after: Strings, key: string) {
    (key in before <==> key in after) && (key in before ==> before[key] == after[key])
  }

  /**
   * What the labels say afterwards: an id that neither the object nor its stored version
   * has comes from the generator; the project is the namespace's; pods and templated kinds
   * are queued under the namespace. All other labels stay.
   */
  lemma AdmitLabels(shape: Shape, m: Meta, req: Request)
    ensures var before, after := m.labels, Admit(shape, m, req).labels;
            var stored := if req.previous.Some? then req.previous.value else map[];
            && (forall key :: key !in {"airm.silogen.ai/workload-id", "airm.silogen.ai/component-id",
                                       "airm.silogen.ai/project-id", "kueue.x-k8s.io/queue-name"}
                  ==> SameAt(before, after, key))
            && (forall key :: key in {"airm.silogen.ai/workload-id", "airm.silogen.ai/component-id"} ==>
                  At(after, key)
                  == if At(before, key) != "" then At(before, key)
                     else if At(stored, key) != "" then At(stored, key)
                     else if key == "airm.silogen.ai/workload-id" then req.freshWorkload else req.freshComponent)
            && At(after, "airm.silogen.ai/project-id") == req.project
            && if shape.Pod? || shape.Templated? then
                 "kueue.x-k8s.io/queue-name" in after && after["kueue.x-k8s.io/queue-name"] == req.namespaceName
               else SameAt(before, after, "kueue.x-k8s.io/queue-name")
  {
  }

  /** What the templates say afterwards: a cron job's job template is queued too, and only ids are added besides. */
  lemma AdmitTemplates(shape: Shape, m: Meta, req: Request)
    ensures var after := Admit(shape, m, req);
            var ids := {"airm.silogen.ai/workload-id", "airm.silogen.ai/component-id"};
            && (!shape.Templated? && !shape.Cron? ==> after.template == m.template)
            && (!shape.Cron? ==> after.inner == m.inner)
            && (forall key :: key !in ids ==> SameAt(m.inner, after.inner, key))
            && (forall key :: key !in ids && !(shape.Cron? && key == "kueue.x-k8s.io/queue-name") ==>
                  SameAt(m.template, after.template, key))
            && (shape.Cron? ==> At(after.template, "kueue.x-k8s.io/queue-name") == req.namespaceName)
  {
  }

  /** An update whose labels leave the ids alone or drop them keeps the identity of the stored object. */
  lemma UpdateKeepsIdentity(shape: Shape, m: Meta, req: Request, stored: Strings)
    requires req.previous == Some(stored) && IdsOf(stored).Complete()
    requires At(m.labels, WORKLOAD_ID) == "" || At(m.labels, WORKLOAD_ID) == At(stored, WORKLOAD_ID)
    requires At(m.labels, COMPONENT_ID) == "" || At(m.labels, COMPONENT_ID) == At(stored, COMPONENT_ID)
    ensures IdsOf(Admit(shape, m, req).labels) == IdsOf(stored)
    ensures req.operation == Update ==> Admit(shape, m, req).annotations == m.annotations
  {
  }

  /** Whatever a second request brings, it leaves the labels and templates of the first as they are. */
  lemma AdmitAgain(shape: Shape, m: Meta, first: Request, second: Request)
    requires first.Valid() && second.Valid()
    requires second.namespaceName == first.namespaceName && second.project == first.project
    ensures var once, twice := Admit(shape, m, first), Admit(shape, Admit(shape, m, first), second);
            && Arriving(once.labels, second.previous).Complete()
            && twice == once.(annotations := Annotated(once.annotations, second, true))
  {
    var once := Admit(shape, m, first);
    AdmitIds(shape, m, first);
    AdmitSettled(shape, once, second);
  }

  /** A webhook that meets its own labels and templates changes only the annotations. */
  lemma AdmitSettled(shape: Shape, m: Meta, req: Request)
    requires IdsOf(m.labels).Complete() && At(m.labels, PROJECT_ID) == req.project
    requires shape.Pod? || shape.Templated? ==> QUEUE_NAME in m.labels && m.labels[QUEUE_NAME] == req.namespaceName
    requires shape.Templated? || shape.Cron? ==> m.template == WithIds(m.template, IdsOf(m.labels))
    requires shape.Cron? ==> QUEUE_NAME in m.template && m.template[QUEUE_NAME] == req.namespaceName
    requires shape.Cron? ==> m.inner == WithIds(m.inner, IdsOf(m.labels))
    ensures Arriving(m.labels, req.previous).Complete()
    ensures Admit(shape, m, req) == m.(annotations := Annotated(m.annotations, req, true))
  {
    var queued := if shape.Pod? || shape.Templated? then m.labels[QUEUE_NAME := req.namespaceName] else m.labels;
    assert queued == m.labels;
    assert Arriving(m.labels, req.previous) == IdsOf(m.labels);
    assert Identified(m.labels, req) == m.labels;
    if shape.Cron? { assert m.template[QUEUE_NAME := req.namespaceName] == m.template; }
  }

  /** Admitting what a webhook returned, as an update in the same namespace, changes nothing. */
  lemma UpdateIdempotent(shape: Shape, m: Meta, first: Request, second: Request)
    requires first.Valid() && second.Valid() && second.operation == Update
    requires second.namespaceName == first.namespaceName && second.project == first.project
    ensures Admit(shape, Admit(shape, m, first), second) == Admit(shape, m, first)
  {
    AdmitAgain(shape, m, first, second);
  }

  /** On creation it changes nothing exactly when the object arrived with both ids: otherwise the mark is lost. */
  lemma CreateIdempotentExactly(shape: Shape, m: Meta, first: Request, second: Request)
    requires first.Valid() && second.Valid() && first.operation == Create && second.operation == Create
    requires second.namespaceName == first.namespaceName && second.project == first.project
    ensures Admit(shape, Admit(shape, m, first), second) == Admit(shape, m, first)
       <==> Arriving(m.labels, first.previous).Complete()
  {
    AdmitAgain(shape, m, first, second);
    assert At(Annotated(Admit(shape, m, first).annotations, second, true), AUTO_DISCOVERED) == "false";
  }

  // ----- chains of owned objects

  /** An object as it arrives at its webhook. */
  datatype Arrival = Arrival(shape: Shape, meta: Meta, req: Request) {
    function Admitted(): Meta {
      Admit(shape, meta, req)
    }
  }

  /** A controller creates `child` from the template of `parent`, adding labels and annotations of its own. */
  predicate Owns(parent: Arrival, child: Arrival) {
    && (parent.shape.Templated? || parent.shape.Cron?)
    && child.req.operation == Create
    && IdsOf(child.meta.labels) == IdsOf(parent.Admitted().template)
  }

  ghost predicate Chain(objects: seq<Arrival>) {
    && (forall i :: 0 <= i < |objects| ==> objects[i].req.Valid())
    && (forall i :: 0 < i < |objects| ==> Owns(objects[i - 1], objects[i]))
  }

  /** An object marked as not created through the platform. */
  predicate Marked(o: Arrival) {
    At(o.Admitted().annotations, AUTO_DISCOVERED) == "true"
  }

  lemma ChildInherits(parent: Arrival, child: Arrival)
    requires parent.req.Valid() && child.req.Valid() && Owns(parent, child)
    ensures IdsOf(child.Admitted().labels) == IdsOf(parent.Admitted().labels)
    ensures !Marked(child)
  {
    AdmitIds(parent.shape, parent.meta, parent.req);
    AdmitIds(child.shape, child.meta, child.req);
  }

  lemma RootMarked(o: Arrival)
    requires o.req.Valid() && o.req.operation == Create
    ensures Marked(o) <==> !Arriving(o.meta.labels, o.req.previous).Complete()
  {
  }

  /** Tracking identity: along a chain of any length every object has the root's ids and no owned object is marked. */
  lemma {:induction false} ChainSharesIdentity(objects: seq<Arrival>, i: nat)
    requires i < |objects| && Chain(objects)
    ensures IdsOf(objects[i].Admitted().labels) == IdsOf(objects[0].Admitted().labels)
    ensures i > 0 ==> !Marked(objects[i])
  {
    if i > 0 {
      ChainSharesIdentity(objects, i - 1);
      ChildInherits(objects[i - 1], objects[i]);
    }
  }

  /** In a chain grown from a created root, the marked objects are just a root that arrived without both ids. */
  lemma OnlyRootMarked(objects: seq<Arrival>, i: nat)
    requires i < |objects| && Chain(objects) && objects[0].req.operation == Create
    ensures Marked(objects[i]) <==> i == 0 && !Arriving(objects[0].meta.labels, objects[0].req.previous).Complete()
  {
    ChainSharesIdentity(objects, i);
    RootMarked(objects[0]);
  }

  // ----- the life of one object

  /** An update of the stored object that keeps each id or drops it. */
  predicate Edits(stored: Arrival, next: Arrival) {
    var ids, before := IdsOf(next.meta.labels), IdsOf(stored.Admitted().labels);
    && next.req.operation == Update && next.req.previous == Some(stored.Admitted().labels)
    && (ids.workload == "" || ids.workload == before.workload)
    && (ids.component == "" || ids.component == before.component)
  }

  /** Through any number of such updates an object keeps its ids, and the webhook leaves its annotations alone. */
  lemma {:induction false} EditsKeepIdentity(objects: seq<Arrival>, i: nat)
    requires i < |objects| && objects[0].req.Valid()
    requires forall k :: 0 < k < |objects| ==> Edits(objects[k - 1], objects[k])
    ensures IdsOf(objects[i].Admitted().labels) == IdsOf(objects[0].Admitted().labels)
    ensures i > 0 ==> objects[i].Admitted().annotations == objects[i].meta.annotations
  {
    AdmitIds(objects[0].shape, objects[0].meta, objects[0].req);
    if i > 0 {
      EditsKeepIdentity(objects, i - 1);
      UpdateKeepsIdentity(objects[i].shape, objects[i].meta, objects[i].req, objects[i - 1].Admitted().labels);
    }
  }

  // ----- the webhooks

  /** A decoded object; its maps are changed in place. */
  class Decoded {
    const shape: Shape
    var labels: Strings
    var annotations: Strings
    var template: Strings
    var inner: Strings

    function Value(): Meta
      reads this
    {
      Meta(labels, annotations, template, inner)
    }

    method EnsureKueueLabel(namespaceName: string)
      modifies this`labels
      ensures labels == old(labels)[QUEUE_NAME := namespaceName]
    {
      labels := labels[QUEUE_NAME := namespaceName];
    }

    method EnsureWorkloadAndComponentIds(req: Request) returns (existed: bool)
      modifies this`labels
      ensures labels == Identified(old(labels), req)
      ensures existed <==> Arriving(old(labels), req.previous).Complete()
    {
      var workload, component := At(labels, WORKLOAD_ID), At(labels, COMPONENT_ID);
      if (workload == "" || component == "") && req.previous.Some? {
        if workload == "" {
          workload := At(req.previous.value, WORKLOAD_ID);
        }
        if component == "" {
          component := At(req.previous.value, COMPONENT_ID);
        }
      }
      existed := workload != "" && component != "";
      if workload == "" {
        workload := req.freshWorkload;
      }
      if component == "" {
        component := req.freshComponent;
      }
      labels := labels[WORKLOAD_ID := workload];
      labels := labels[COMPONENT_ID := component];
    }

    method ApplyTrackingMetadata(req: Request, existed: bool)
      modifies this`labels, this`annotations
      ensures labels == InProject(old(labels), req.project)
      ensures annotations == Annotated(old(annotations), req, existed)
    {
      if At(labels, PROJECT_ID) != req.project {
        labels := labels[PROJECT_ID := req.project];
      }
      if !existed && At(annotations, AUTO_DISCOVERED) != "true" {
        if At(annotations, SUBMITTER) == "" {
          annotations := annotations[SUBMITTER := req.user];
        }
        annotations := annotations[AUTO_DISCOVERED := "true"];
      } else if req.operation == Create && existed {
        annotations := annotations[AUTO_DISCOVERED := "false"];
      }
    }

    /** The webhook of each kind: labels first, then the templates they propagate to. */
    method Handle(req: Request)
      modifies this
      ensures Value() == Admit(shape, old(Value()), req)
    {
      if shape.Pod? || shape.Templated? {
        EnsureKueueLabel(req.namespaceName);
      }
      if shape.Cron? {
        template := template[QUEUE_NAME := req.namespaceName];
      }
      assert Arriving(labels, req.previous) == Arriving(old(labels), req.previous);
      var existed := EnsureWorkloadAndComponentIds(req);
      ApplyTrackingMetadata(req, existed);
      if shape.Templated? || shape.Cron? {
        template := PropagateTrackingLabels(template);
      }
      if shape.Cron? {
        inner := PropagateTrackingLabels(inner);
      }
    }

    method PropagateTrackingLabels(target: Strings) returns (propagated: Strings)
      ensures propagated == WithIds(target, IdsOf(labels))
    {
      propagated := target[WORKLOAD_ID := At(labels, WORKLOAD_ID)];
      propagated := propagated[COMPONENT_ID := At(labels, COMPONENT_ID)];
    }
  }
}
