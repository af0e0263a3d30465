/**
 * The agent's finalizer protocol: an object under deletion is held by a finalizer until
 * its deletion message is published. Controllers read from a cache, so a reconcile may
 * work on any past version of the object; its patches replace the whole finalizer list.
 */
module Finalizers {
  import opened Domain

  const SECRET_ID := "airm.silogen.ai/project-secret-id"
  const STORAGE_ID := "airm.silogen.ai/project-storage-id"

  type Labels = map<string, string>

  /** The part of a Kubernetes object that the protocol reads and writes. */
  datatype Object = Object(labels: Labels, finalizers: set<string>, deleting: bool)

  datatype Kind = Workload | Secret | Storage | QueueConfig | ClusterNamespace

  /** What a controller publishes before it lets an object under deletion go. */
  datatype Announcement =
    | ComponentDeleted(component: string)
    | SecretDeleted(secret: string)
    | StorageDeleted(storage: string)
    | QuotasEmptied
    | NamespaceTerminating(project: string)

  /** What a controller watches; `isUuid` is the UUID parser's verdict. */
  datatype Watch = Watch(kind: Kind, finalizer: string, isUuid: string -> bool)

  /** The labels a workload component needs to be reported at all. */
  predicate Tracked(w: Watch, labels: Labels) {
    && WORKLOAD_ID in labels && w.isUuid(labels[WORKLOAD_ID])
    && COMPONENT_ID in labels && w.isUuid(labels[COMPONENT_ID])
    && PROJECT_ID in labels && w.isUuid(labels[PROJECT_ID])
  }

  /** The deletion message for an object with these labels; none when they do not identify it. */
  function Announce(w: Watch, labels: Labels): Option<Announcement> {
    match w.kind
    case Workload => if Tracked(w, labels) then Some(ComponentDeleted(labels[COMPONENT_ID])) else None
    case Secret => if SECRET_ID in labels then Some(SecretDeleted(labels[SECRET_ID])) else None
    case Storage => if STORAGE_ID in labels then Some(StorageDeleted(labels[STORAGE_ID])) else None
    case QueueConfig => Some(QuotasEmptied)
    case ClusterNamespace => Some(NamespaceTerminating(if PROJECT_ID in labels then labels[PROJECT_ID] else ""))
  }

  // ----- the API server and the steps

  /** The stored object, every version it ever had, and what was published about it. */
  datatype World = World(obj: Option<Object>, versions: set<Object>, published: seq<Announcement>)

  datatype Event =
    | Reconcile(copy: Object, publishOk: bool, patchOk: bool)
    | RequestDelete
    | Relabel(labels: Labels)
    | Outsiders(finalizers: set<string>)

  /** A write; an object under deletion without finalizers leaves. */
  function Put(s: World, o: Object): World {
    s.(obj := if o.deleting && o.finalizers == {} then None else Some(o), versions := s.versions + {o})
  }

  /** A patch of the finalizer list: no finalizer may be added to an object under deletion. */
  function Patch(s: World, finalizers: set<string>, ok: bool): World {
    if !ok || s.obj.None? || (s.obj.value.deleting && !(finalizers <= s.obj.value.finalizers)) then s
    else Put(s, s.obj.value.(finalizers := finalizers))
  }

  /** The deletion branch of a reconcile that read `copy`. */
  function Deletion(w: Watch, s: World, copy: Object, publishOk: bool, patchOk: bool): World {
    if w.finalizer !in copy.finalizers then s
    else
      var a := Announce(w, copy.labels);
      if a.Some? && !publishOk then s
      else
        Patch(if a.Some? then s.(published := s.published + [a.value]) else s, copy.finalizers - {w.finalizer}, patchOk)
  }

  function Step(w: Watch, s: World, e: Event): World {
    match e
    case Reconcile(copy, publishOk, patchOk) =>
      if copy !in s.versions then s
      else if copy.deleting then Deletion(w, s, copy, publishOk, patchOk)
      else if w.finalizer in copy.finalizers then s
      else Patch(s, copy.finalizers + {w.finalizer}, patchOk)
    case RequestDelete => if s.obj.Some? then Put(s, s.obj.value.(deleting := true)) else s
    case Relabel(labels) => if s.obj.Some? then Put(s, s.obj.value.(labels := labels)) else s
    case Outsiders(finalizers) =>
      if s.obj.Some? && (w.finalizer in finalizers <==> w.finalizer in s.obj.value.finalizers)
         && (s.obj.value.deleting ==> finalizers <= s.obj.value.finalizers)
      then Put(s, s.obj.value.(finalizers := finalizers)) else s
  }

  function Run(w: Watch, s: World, es: seq<Event>): World
    decreases es
  {
    if es == [] then s else Run(w, Step(w, s, es[0]), es[1..])
  }

  /** A newly created object. */
  function Created(o: Object): World {
    World(Some(o.(deleting := false)), {o.(deleting := false)}, [])
  }

  // ----- safety over every run

  predicate Held(w: Watch, s: World) {
    s.obj.Some? && w.finalizer in s.obj.value.finalizers
  }

  ghost predicate Carried(w: Watch, s: World) {
    exists v :: v in s.versions && w.finalizer in v.finalizers
  }

  /** A version under deletion and still held, whose deletion was published or could not be. */
  ghost predicate Answered(w: Watch, s: World) {
    exists v :: v in s.versions && v.deleting && w.finalizer in v.finalizers
                && (Announce(w, v.labels).None? || Announce(w, v.labels).value in s.published)
  }

  ghost predicate Truthful(w: Watch, s: World) {
    forall a :: a in s.published ==> exists v :: v in s.versions && v.deleting && Announce(w, v.labels) == Some(a)
  }

  ghost predicate Inv(w: Watch, s: World) {
    && (s.obj.Some? ==> s.obj.value in s.versions)
    && (Carried(w, s) && !Held(w, s) ==> Answered(w, s))
    && Truthful(w, s)
  }

  lemma AnsweredGrows(w: Watch, s: World, s': World)
    requires s.versions <= s'.versions && s.published <= s'.published
    ensures Answered(w, s) ==> Answered(w, s')
  {
    if Answered(w, s) {
      var v :| v in s.versions && v.deleting && w.finalizer in v.finalizers
               && (Announce(w, v.labels).None? || Announce(w, v.labels).value in s.published);
      assert v in s'.versions;
    }
  }

  lemma TruthGrows(w: Watch, s: World, s': World)
    requires Truthful(w, s) && s.versions <= s'.versions && s'.published == s.published
    ensures Truthful(w, s')
  {
    forall a | a in s'.published
      ensures exists v :: v in s'.versions && v.deleting && Announce(w, v.labels) == Some(a)
    {
      var v :| v in s.versions && v.deleting && Announce(w, v.labels) == Some(a);
      assert v in s'.versions;
    }
  }

  /** A write that leaves the finalizer as it was. */
  lemma PutInv(w: Watch, s: World, o: Object)
    requires Inv(w, s) && s.obj.Some? && (w.finalizer in s.obj.value.finalizers <==> w.finalizer in o.finalizers)
    ensures Inv(w, Put(s, o))
  {
    var s' := Put(s, o);
    AnsweredGrows(w, s, s');
    TruthGrows(w, s, s');
    if Carried(w, s') && !Held(w, s') {
      var v :| v in s'.versions && w.finalizer in v.finalizers;
      assert v in s.versions;
    }
  }

  lemma PatchAddInv(w: Watch, s: World, finalizers: set<string>, ok: bool)
    requires Inv(w, s) && w.finalizer in finalizers
    ensures Inv(w, Patch(s, finalizers, ok))
  {
    TruthGrows(w, s, Patch(s, finalizers, ok));
  }

  /** A patch that drops the finalizer, after the deletion was answered. */
  lemma PatchDropInv(w: Watch, s: World, finalizers: set<string>, ok: bool)
    requires Inv(w, s) && Answered(w, s)
    ensures Inv(w, Patch(s, finalizers, ok))
  {
    AnsweredGrows(w, s, Patch(s, finalizers, ok));
    TruthGrows(w, s, Patch(s, finalizers, ok));
  }

  lemma PublishInv(w: Watch, s: World, copy: Object)
    requires Inv(w, s) && copy in s.versions && copy.deleting && w.finalizer in copy.finalizers
    requires Announce(w, copy.labels).Some?
    ensures var s' := s.(published := s.published + [Announce(w, copy.labels).value]); Inv(w, s') && Answered(w, s')
  {
    var a := Announce(w, copy.labels).value;
    var s' := s.(published := s.published + [a]);
    forall b | b in s'.published
      ensures exists v :: v in s'.versions && v.deleting && Announce(w, v.labels) == Some(b)
    {
      if b == a { assert copy in s'.versions; } else { assert b in s.published; }
    }
    assert a in s'.published;
  }

  lemma StepInv(w: Watch, s: World, e: Event)
    requires Inv(w, s)
    ensures Inv(w, Step(w, s, e))
  {
    match e
    case Reconcile(copy, publishOk, patchOk) =>
      if copy in s.versions && w.finalizer in copy.finalizers && copy.deleting {
        var a := Announce(w, copy.labels);
        if a.Some? && publishOk {
          PublishInv(w, s, copy);
          PatchDropInv(w, s.(published := s.published + [a.value]), copy.finalizers - {w.finalizer}, patchOk);
        } else if a.None? {
          PatchDropInv(w, s, copy.finalizers - {w.finalizer}, patchOk);
        }
      } else if copy in s.versions && !copy.deleting && w.finalizer !in copy.finalizers {
        PatchAddInv(w, s, copy.finalizers + {w.finalizer}, patchOk);
      }
    case RequestDelete => if s.obj.Some? { PutInv(w, s, s.obj.value.(deleting := true)); }
    case Relabel(labels) => if s.obj.Some? { PutInv(w, s, s.obj.value.(labels := labels)); }
    case Outsiders(finalizers) =>
      if s.obj.Some? && (w.finalizer in finalizers <==> w.finalizer in s.obj.value.finalizers) {
        PutInv(w, s, s.obj.value.(finalizers := finalizers));
      }
  }

  lemma {:induction false} RunInv(w: Watch, s: World, es: seq<Event>)
    requires Inv(w, s)
    ensures Inv(w, Run(w, s, es))
    decreases es
  {
    if es != [] {
      StepInv(w, s, es[0]);
      RunInv(w, Step(w, s, es[0]), es[1..]);
    }
  }

  /**
   * Publish first, then release: in every interleaving, if the object ever carried the
   * finalizer and now is gone or no longer carries it, then some version under deletion
   * and held either had its deletion published or had labels that name nothing to
   * publish. And a deletion is published only of an object under deletion.
   */
  lemma PublishedBeforeReleased(w: Watch, o: Object, es: seq<Event>)
    ensures var s := Run(w, Created(o), es);
            (Carried(w, s) && !Held(w, s) ==> Answered(w, s)) && Truthful(w, s)
  {
    RunInv(w, Created(o), es);
  }

  /** When every version under deletion could be announced, none leaves unannounced. */
  lemma AnnouncedBeforeReleased(w: Watch, o: Object, es: seq<Event>)
    requires forall v :: v in Run(w, Created(o), es).versions && v.deleting ==> Announce(w, v.labels).Some?
    ensures var s := Run(w, Created(o), es);
            Carried(w, s) && !Held(w, s) ==>
              exists v :: v in s.versions && v.deleting && w.finalizer in v.finalizers
                          && Announce(w, v.labels).Some? && Announce(w, v.labels).value in s.published
  {
    RunInv(w, Created(o), es);
    var s := Run(w, Created(o), es);
    if Carried(w, s) && !Held(w, s) {
      var v :| v in s.versions && v.deleting && w.finalizer in v.finalizers
               && (Announce(w, v.labels).None? || Announce(w, v.labels).value in s.published);
      assert Announce(w, v.labels).Some?;
    }
  }

  // ----- when an object can leave in silence

  /** A cached version that would be released without a message, by a patch the server accepts. */
  ghost predicate Mute(w: Watch, s: World, v: Object) {
    && v in s.versions && v.deleting && w.finalizer in v.finalizers && Announce(w, v.labels).None?
    && s.obj.Some? && v.finalizers - {w.finalizer} <= s.obj.value.finalizers
  }

  /** The finalizer is held on an object under deletion. */
  predicate Doomed(w: Watch, s: World) {
    Held(w, s) && s.obj.value.deleting && s.obj.value in s.versions
  }

  /** Reconciles that end the hold without publishing anything. */
  ghost predicate SilentRelease(w: Watch, s: World, es: seq<Event>) {
    && (forall e :: e in es ==> e.Reconcile?)
    && !Held(w, Run(w, s, es)) && Run(w, s, es).published == s.published
  }

  lemma AgentStep(w: Watch, s: World, e: Event)
    requires Doomed(w, s) && e.Reconcile? && Step(w, s, e).published == s.published
    ensures Doomed(w, Step(w, s, e)) || exists v :: Mute(w, s, v)
    ensures Doomed(w, Step(w, s, e)) && (exists v :: Mute(w, Step(w, s, e), v)) ==> exists v :: Mute(w, s, v)
  {
    var s' := Step(w, s, e);
    if !Doomed(w, s') {
      assert Mute(w, s, e.copy);
    } else if v :| Mute(w, s', v) {
      if v !in s.versions {
        assert v.labels == s.obj.value.labels;
        assert Mute(w, s, s.obj.value);
      } else {
        assert Mute(w, s, v);
      }
    }
  }

  lemma {:induction false} PublishedGrows(w: Watch, s: World, es: seq<Event>)
    ensures s.published <= Run(w, s, es).published
    decreases es
  {
    if es != [] {
      PublishedGrows(w, Step(w, s, es[0]), es[1..]);
    }
  }

  lemma {:induction false} SilenceNeedsMute(w: Watch, s: World, es: seq<Event>)
    requires Doomed(w, s) && SilentRelease(w, s, es)
    ensures exists v :: Mute(w, s, v)
    decreases es
  {
    if es != [] {
      var s' := Step(w, s, es[0]);
      assert es[0] in es;
      PublishedGrows(w, s', es[1..]);
      assert s'.published == s.published;
      AgentStep(w, s, es[0]);
      if Doomed(w, s') {
        SilenceNeedsMute(w, s', es[1..]);
      }
    }
  }

  /**
   * The exact condition: reconciles alone can release an object under deletion without
   * publishing anything if and only if some version they may still read from the cache
   * is under deletion with labels that name nothing.
   */
  lemma SilentReleaseExactly(w: Watch, s: World)
    requires Doomed(w, s)
    ensures (exists es :: SilentRelease(w, s, es)) <==> (exists v :: Mute(w, s, v))
  {
    if v :| Mute(w, s, v) {
      var es := [Reconcile(v, false, true)];
      var s' := Step(w, s, es[0]);
      assert es[1..] == [];
      assert Run(w, s', es[1..]) == s';
      assert Run(w, s, es) == s';
      assert SilentRelease(w, s, es);
    }
    if es :| SilentRelease(w, s, es) {
      SilenceNeedsMute(w, s, es);
    }
  }

  /**
   * One undisturbed reconcile of the current version publishes and releases; the object
   * leaves unless others hold it.
   */
  lemma ReleaseSucceeds(w: Watch, s: World)
    requires Doomed(w, s)
    ensures var o := s.obj.value; var s' := Step(w, s, Reconcile(o, true, true));
            && !Held(w, s') && (s'.obj.None? <==> o.finalizers == {w.finalizer})
            && s'.published == s.published + if Announce(w, o.labels).Some? then [Announce(w, o.labels).value] else []
  {
  }

  /** The label is there and parses as a UUID. */
  predicate Uuid(w: Watch, labels: Labels, key: string) {
    key in labels && w.isUuid(labels[key])
  }

  /**
   * What a reconcile says of an object under deletion that it finds held. A workload is
   * named by its component id, and only when workload, component and project ids are all
   * UUIDs; a secret and a storage by their own label, whatever it holds; a namespace by
   * its project label, if it has one.
   */
  lemma DeletionSays(w: Watch, s: World, copy: Object, patchOk: bool)
    requires copy in s.versions && copy.deleting && w.finalizer in copy.finalizers
    ensures var said := Step(w, s, Reconcile(copy, true, patchOk)).published;
            match w.kind
            case Workload =>
              if Uuid(w, copy.labels, "airm.silogen.ai/workload-id")
                 && Uuid(w, copy.labels, "airm.silogen.ai/component-id")
                 && Uuid(w, copy.labels, "airm.silogen.ai/project-id")
              then said == s.published + [ComponentDeleted(copy.labels["airm.silogen.ai/component-id"])]
              else said == s.published
            case Secret =>
              if "airm.silogen.ai/project-secret-id" in copy.labels
              then said == s.published + [SecretDeleted(copy.labels["airm.silogen.ai/project-secret-id"])]
              else said == s.published
            case Storage =>
              if "airm.silogen.ai/project-storage-id" in copy.labels
              then said == s.published + [StorageDeleted(copy.labels["airm.silogen.ai/project-storage-id"])]
              else said == s.published
            case QueueConfig => said == s.published + [QuotasEmptied]
            case ClusterNamespace =>
              if "airm.silogen.ai/project-id" in copy.labels
              then said == s.published + [NamespaceTerminating(copy.labels["airm.silogen.ai/project-id"])]
              else said == s.published + [NamespaceTerminating("")]
  {
  }

  /**
   * What a reconcile does to an object that is there, whatever version it read: outside
   * deletion the finalizer is added, and under deletion dropped once there is nothing left
   * to publish, by a patch of the whole list as it was read. The server refuses a list
   * with something new under deletion, and lets an object go that nothing holds.
   */
  lemma ReconcileWrites(w: Watch, s: World, copy: Object, publishOk: bool, patchOk: bool)
    requires s.obj.Some? && copy in s.versions
    ensures var o, s' := s.obj.value, Step(w, s, Reconcile(copy, publishOk, patchOk));
            var held := w.finalizer in copy.finalizers;
            var list := if copy.deleting then copy.finalizers - {w.finalizer} else copy.finalizers + {w.finalizer};
            && (if copy.deleting != held || !patchOk || (o.deleting && exists x :: x in list && x !in o.finalizers)
                   || (copy.deleting && !publishOk && Announce(w, copy.labels).Some?)
                then s'.obj == s.obj
                else s'.obj == if o.deleting && list == {} then None
                               else Some(Object(o.labels, list, o.deleting)))
            && (!copy.deleting || !held || !publishOk ==> s'.published == s.published)
  {
    var o, list := s.obj.value,
                   if copy.deleting then copy.finalizers - {w.finalizer} else copy.finalizers + {w.finalizer};
    assert list <= o.finalizers <==> !exists x :: x in list && x !in o.finalizers;
  }

  // ----- the controllers

  /** A controller's own copy of an object, changed in place before it is patched. */
  class Resource {
    const labels: Labels
    const deleting: bool
    var finalizers: set<string>

    constructor (o: Object)
      ensures labels == o.labels && deleting == o.deleting && finalizers == o.finalizers
    {
      labels, deleting, finalizers := o.labels, o.deleting, o.finalizers;
    }
  }

  /** The API server and the publisher as one controller sees them. */
  class Controller {
    const watch: Watch
    var obj: Option<Object>
    var versions: set<Object>
    var published: seq<Announcement>

    function State(): World
      reads this
    {
      World(obj, versions, published)
    }

    method PatchFinalizers(finalizers: set<string>, ok: bool) returns (patched: bool)
      modifies this`obj, this`versions
      ensures State() == Patch(old(State()), finalizers, ok)
    {
      patched := ok && obj.Some? && (obj.value.deleting ==> finalizers <= obj.value.finalizers);
      if patched {
        var o := obj.value.(finalizers := finalizers);
        versions := versions + {o};
        obj := if o.deleting && finalizers == {} then None else Some(o);
      }
    }

    method Publish(a: Announcement, ok: bool)
      modifies this`published
      ensures published == if ok then old(published) + [a] else old(published)
    {
      if ok {
        published := published + [a];
      }
    }

    method RemoveFinalizer(r: Resource, patchOk: bool) returns (ok: bool)
      requires watch.finalizer in r.finalizers
      modifies this`obj, this`versions, r
      ensures State() == Patch(old(State()), old(r.finalizers) - {watch.finalizer}, patchOk)
      ensures r.finalizers == old(r.finalizers) - {watch.finalizer}
    {
      r.finalizers := r.finalizers - {watch.finalizer};
      ok := PatchFinalizers(r.finalizers, patchOk);
    }

    method AddFinalizerIfNeeded(r: Resource, patchOk: bool) returns (ok: bool)
      modifies this`obj, this`versions, r
      ensures State() == if watch.finalizer in old(r.finalizers) then old(State())
                         else Patch(old(State()), old(r.finalizers) + {watch.finalizer}, patchOk)
      ensures r.finalizers == old(r.finalizers) + {watch.finalizer}
    {
      ok := true;
      if watch.finalizer !in r.finalizers {
        r.finalizers := r.finalizers + {watch.finalizer};
        ok := PatchFinalizers(r.finalizers, patchOk);
      }
    }

    /** A publish that fails keeps the finalizer, so that the reconcile is retried. */
    method HandleDeletion(r: Resource, publishOk: bool, patchOk: bool) returns (ok: bool)
      modifies this`obj, this`versions, this`published, r
      ensures var copy := Object(r.labels, old(r.finalizers), r.deleting);
              State() == Deletion(watch, old(State()), copy, publishOk, patchOk)
    {
      if watch.finalizer !in r.finalizers {
        return true;
      }
      var message := Announce(watch, r.labels);
      if message.Some? {
        Publish(message.value, publishOk);
        if !publishOk {
          return false;
        }
      }
      ok := RemoveFinalizer(r, patchOk);
    }

    method ReconcileCopy(copy: Object, publishOk: bool, patchOk: bool) returns (ok: bool)
      requires copy in versions
      modifies this`obj, this`versions, this`published
      ensures State() == Step(watch, old(State()), Reconcile(copy, publishOk, patchOk))
    {
      var r := new Resource(copy);
      if r.deleting {
        ok := HandleDeletion(r, publishOk, patchOk);
      } else {
        ok := AddFinalizerIfNeeded(r, patchOk);
      }
    }
  }
}
