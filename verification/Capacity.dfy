/**
 * Cluster totals, the admission check and the allocation message: what the quota
 * utilities and the cluster service compute from quota and node rows.
 */
module Capacity {
  import opened Domain

  // ----- totals

  /** What one project's quota row takes from cluster `c`. */
  function Weight(quotas: map<ProjectId, Quota>, pid: ProjectId, c: ClusterId): Resources {
    if pid in quotas && quotas[pid].cluster == c && quotas[pid].status.Active() then quotas[pid].figures else ZERO
  }

  function SumQuotas(quotas: map<ProjectId, Quota>, ids: seq<ProjectId>, c: ClusterId): Resources {
    if ids == [] then ZERO else Weight(quotas, ids[0], c).Plus(SumQuotas(quotas, ids[1..], c))
  }

  function Allocated(db: Db, c: ClusterId): Resources {
    SumQuotas(db.quotas, db.order, c)
  }

  function SumReady(nodes: seq<Node>): Resources {
    if nodes == [] then ZERO
    else (if nodes[0].ready then nodes[0].figures else ZERO).Plus(SumReady(nodes[1..]))
  }

  function Available(db: Db, c: ClusterId): Resources {
    SumReady(NodesOf(db, c))
  }

  /** The vendor of the first node that has GPUs; none when no node does. */
  function VendorOf(nodes: seq<Node>): Option<Vendor> {
    if nodes == [] then None
    else if nodes[0].figures.gpu > 0 then nodes[0].vendor
    else VendorOf(nodes[1..])
  }

  predicate WithinCapacity(db: Db, c: ClusterId) {
    Allocated(db, c).Within(Available(db, c))
  }

  lemma {:induction false} SumAgrees(q: map<ProjectId, Quota>, q': map<ProjectId, Quota>, ids: seq<ProjectId>,
                                     c: ClusterId)
    requires forall pid :: pid in ids ==> Weight(q, pid, c) == Weight(q', pid, c)
    ensures SumQuotas(q, ids, c) == SumQuotas(q', ids, c)
  {
    if ids == [] {
    } else {
      assert ids[0] in ids;
      SumAgrees(q, q', ids[1..], c);
    }
  }

  /** Replacing one row changes the total by exactly the difference of its weights. */
  lemma {:induction false} SumReplaced(q: map<ProjectId, Quota>, q': map<ProjectId, Quota>, ids: seq<ProjectId>,
                                       pid: ProjectId, c: ClusterId)
    requires Distinct(ids) && pid in ids
    requires forall x :: x in ids && x != pid ==> Weight(q, x, c) == Weight(q', x, c)
    ensures SumQuotas(q', ids, c) == SumQuotas(q, ids, c).Minus(Weight(q, pid, c)).Plus(Weight(q', pid, c))
  {
    var first, rest := ids[0], ids[1..];
    assert Distinct(rest) && first !in rest && first in ids && (forall x :: x in rest ==> x in ids) by {
      DistinctTail(ids);
    }
    PlusExchange(Weight(q, pid, c), Weight(q', pid, c), SumQuotas(q, rest, c), Weight(q, first, c));
    if first == pid {
      SumAgrees(q, q', rest, c);
    } else {
      assert pid in rest by { DistinctTail(ids); }
      SumReplaced(q, q', rest, pid, c);
    }
  }

  lemma {:induction false} SumAppend(q: map<ProjectId, Quota>, ids: seq<ProjectId>, pid: ProjectId, c: ClusterId)
    ensures SumQuotas(q, ids + [pid], c) == SumQuotas(q, ids, c).Plus(Weight(q, pid, c))
  {
    if ids == [] {
      assert [pid][1..] == [];
    } else {
      assert (ids + [pid])[1..] == ids[1..] + [pid];
      SumAppend(q, ids[1..], pid, c);
    }
  }

  /** Dropping rows of non-negative weight and shrinking the others cannot raise the total. */
  lemma {:induction false} SumShrinks(
      q: map<ProjectId, Quota>, q': map<ProjectId, Quota>, ids: seq<ProjectId>, gone: set<ProjectId>, c: ClusterId)
    requires forall x :: x in ids && x in gone ==> ZERO.Within(Weight(q, x, c))
    requires forall x :: x in ids && x !in gone ==> Weight(q', x, c).Within(Weight(q, x, c))
    ensures SumQuotas(q', Without(ids, gone), c).Within(SumQuotas(q, ids, c))
  {
    if ids == [] {
    } else {
      assert ids[0] in ids;
      SumShrinks(q, q', ids[1..], gone, c);
      if ids[0] !in gone {
        assert ([ids[0]] + Without(ids[1..], gone))[1..] == Without(ids[1..], gone);
      }
    }
  }

  // ----- which rows count

  /** What a node has to offer. */
  function Offer(n: Node): Resources {
    if n.ready then n.figures else ZERO
  }

  lemma {:induction false} ReadyConcat(a: seq<Node>, b: seq<Node>)
    ensures SumReady(a + b) == SumReady(a).Plus(SumReady(b))
  {
    if a == [] {
      assert a + b == b;
      ZeroPlus(SumReady(b));
    } else {
      assert (a + b)[1..] == a[1..] + b;
      ReadyConcat(a[1..], b);
      PlusMoves(Offer(a[0]), SumReady(a[1..]), SumReady(b));
    }
  }

  lemma ReadyRow(a: seq<Node>, n: Node, b: seq<Node>)
    ensures SumReady(a + [n] + b) == SumReady(a + b).Plus(Offer(n))
  {
    ReadyConcat(a, [n]);
    ReadyConcat(a + [n], b);
    ReadyConcat(a, b);
    OneReady(n);
    PlusBetween(SumReady(a), Offer(n), SumReady(b));
  }

  lemma OneReady(n: Node)
    ensures SumReady([n]) == Offer(n)
  {
    assert [n][1..] == [];
    ZeroPlus(Offer(n));
  }

  lemma PlusBetween(x: Resources, y: Resources, z: Resources)
    ensures x.Plus(y).Plus(z) == x.Plus(z).Plus(y)
  {
  }

  lemma PlusMinus(r: Resources, x: Resources)
    ensures r.Plus(x).Minus(x) == r && r.Plus(ZERO) == r
  {
  }

  /** A node that joins a cluster adds its figures to what is available only when it is ready. */
  lemma NodeJoins(db: Db, db': Db, c: ClusterId, a: seq<Node>, n: Node, b: seq<Node>)
    requires NodesOf(db, c) == a + b && NodesOf(db', c) == a + [n] + b
    ensures Available(db', c) == if n.ready then Available(db, c).Plus(n.figures) else Available(db, c)
    ensures !n.ready && db'.quotas == db.quotas && db'.order == db.order ==> CatchAll(db', c) == CatchAll(db, c)
  {
    ReadyRow(a, n, b);
    PlusMinus(SumReady(a + b), ZERO);
  }

  /** A node that stops being ready takes exactly its figures out. */
  lemma NodeFails(db: Db, db': Db, c: ClusterId, a: seq<Node>, n: Node, b: seq<Node>)
    requires n.ready && NodesOf(db, c) == a + [n] + b && NodesOf(db', c) == a + [n.(ready := false)] + b
    ensures Available(db', c) == Available(db, c).Minus(n.figures)
  {
    ReadyRow(a, n, b);
    ReadyRow(a, n.(ready := false), b);
    PlusMinus(SumReady(a + b), n.figures);
  }

  lemma {:induction false} NothingReady(nodes: seq<Node>)
    requires forall n :: n in nodes ==> !n.ready
    ensures SumReady(nodes) == ZERO
  {
    if nodes != [] {
      assert nodes[0] in nodes;
      NothingReady(nodes[1..]);
      ZeroPlus(ZERO);
    }
  }

  lemma {:induction false} QuotaConcat(q: map<ProjectId, Quota>, a: seq<ProjectId>, b: seq<ProjectId>, c: ClusterId)
    ensures SumQuotas(q, a + b, c) == SumQuotas(q, a, c).Plus(SumQuotas(q, b, c))
  {
    if a == [] {
      assert a + b == b;
      ZeroPlus(SumQuotas(q, b, c));
    } else {
      assert (a + b)[1..] == a[1..] + b;
      QuotaConcat(q, a[1..], b, c);
      PlusMoves(Weight(q, a[0], c), SumQuotas(q, a[1..], c), SumQuotas(q, b, c));
    }
  }

  lemma QuotaRow(q: map<ProjectId, Quota>, a: seq<ProjectId>, pid: ProjectId, b: seq<ProjectId>, c: ClusterId)
    ensures SumQuotas(q, a + [pid] + b, c) == SumQuotas(q, a + b, c).Plus(Weight(q, pid, c))
  {
    SumAppend(q, a, pid, c);
    QuotaConcat(q, a + [pid], b, c);
    QuotaConcat(q, a, b, c);
    PlusBetween(SumQuotas(q, a, c), Weight(q, pid, c), SumQuotas(q, b, c));
  }

  /**
   * A project more in the tables adds the figures of its quota to what its cluster has
   * allocated, unless the quota is in deletion, and nothing to any other cluster.
   */
  lemma QuotaCounts(db: Db, db': Db, a: seq<ProjectId>, pid: ProjectId, b: seq<ProjectId>, c: ClusterId)
    requires db.quotas == db'.quotas && db.order == a + b && db'.order == a + [pid] + b && pid in db.quotas
    ensures var q := db.quotas[pid];
            var held := q.status != QuotaStatus.Deleting && q.status != QuotaStatus.Deleted;
            Allocated(db', c) == Allocated(db, c).Plus(if q.cluster == c && held then q.figures else ZERO)
  {
    QuotaRow(db.quotas, a, pid, b, c);
  }

  lemma {:induction false} NothingHeld(q: map<ProjectId, Quota>, ids: seq<ProjectId>, c: ClusterId)
    requires forall pid :: pid in ids ==> Weight(q, pid, c) == ZERO
    ensures SumQuotas(q, ids, c) == ZERO
  {
    if ids != [] {
      assert ids[0] in ids;
      NothingHeld(q, ids[1..], c);
      ZeroPlus(ZERO);
    }
  }

  /** The vendor is that of the first row with GPUs, ready or not. */
  lemma {:induction false} VendorFirst(nodes: seq<Node>, i: nat)
    requires i < |nodes| && nodes[i].figures.gpu > 0 && forall j :: 0 <= j < i ==> nodes[j].figures.gpu <= 0
    ensures VendorOf(nodes) == nodes[i].vendor
  {
    if i > 0 {
      assert forall j :: 0 <= j < i - 1 ==> nodes[1..][j] == nodes[j + 1];
      VendorFirst(nodes[1..], i - 1);
    }
  }

  lemma {:induction false} VendorNone(nodes: seq<Node>)
    requires forall n :: n in nodes ==> n.figures.gpu <= 0
    ensures VendorOf(nodes) == None
  {
    if nodes != [] {
      assert nodes[0] in nodes;
      VendorNone(nodes[1..]);
    }
  }

  /** So an allocation message carries the vendor of the cluster's first row with GPUs, and none when there is none. */
  lemma MessageVendor(db: Db, c: ClusterId)
    ensures forall i :: 0 <= i < |NodesOf(db, c)| && NodesOf(db, c)[i].figures.gpu > 0
                        && NoGpus(NodesOf(db, c)[..i])
                        ==> AllocationMessage(db, c).vendor == NodesOf(db, c)[i].vendor
    ensures NoGpus(NodesOf(db, c)) ==> AllocationMessage(db, c).vendor == None
  {
    var nodes := NodesOf(db, c);
    forall i | 0 <= i < |nodes| && nodes[i].figures.gpu > 0 && NoGpus(nodes[..i])
      ensures AllocationMessage(db, c).vendor == nodes[i].vendor
    {
      forall j | 0 <= j < i ensures nodes[j].figures.gpu <= 0 { assert nodes[..i][j] in nodes[..i]; }
      VendorFirst(nodes, i);
    }
    if NoGpus(nodes) {
      VendorNone(nodes);
    }
  }

  predicate NoGpus(nodes: seq<Node>) {
    forall n :: n in nodes ==> n.figures.gpu <= 0
  }

  // ----- admission

  /** Resources the cluster would hold if `figures` replaced `previous`. */
  function Prospective(held: Resources, previous: Option<Resources>, figures: Resources): Resources {
    (if previous.Some? then held.Minus(previous.value) else held).Plus(figures)
  }

  /** The admission check: the dimensions that would overflow, in the order they are reported. */
  method ValidateQuota(held: Resources, available: Resources, figures: Resources, previous: Option<Resources>)
    returns (errors: seq<Dimension>)
    ensures forall d :: d in errors <==> Prospective(held, previous, figures).Get(d) > available.Get(d)
    ensures errors == [] <==> Prospective(held, previous, figures).Within(available)
    ensures Distinct(errors)
  {
    var cpu, memory, storage, gpu := held.cpu, held.memory, held.storage, held.gpu;
    if previous.Some? {
      cpu := cpu - previous.value.cpu;
      memory := memory - previous.value.memory;
      storage := storage - previous.value.storage;
      gpu := gpu - previous.value.gpu;
    }
    ghost var total := Prospective(held, previous, figures);
    assert total == Resources(cpu, memory, storage, gpu).Plus(figures);
    errors := if cpu + figures.cpu > available.cpu then [Cpu] else [];
    if memory + figures.memory > available.memory {
      errors := errors + [Memory];
    }
    if storage + figures.storage > available.storage {
      errors := errors + [Storage];
    }
    if gpu + figures.gpu > available.gpu {
      errors := errors + [Gpu];
    }
    forall d ensures d in errors <==> total.Get(d) > available.Get(d) {
      match d case Cpu => case Memory => case Storage => case Gpu =>
    }
    if errors != [] {
      assert errors[0] in errors;
    }
  }

  // ----- the allocation message

  function Remaining(available: int, held: int): int {
    if available - held > 0 then available - held else 0
  }

  /** Whatever the projects leave over. */
  function CatchAll(db: Db, c: ClusterId): Allocation {
    var a, u := Available(db, c), Allocated(db, c);
    Allocation(CATCH_ALL,
               Resources(Remaining(a.cpu, u.cpu), Remaining(a.memory, u.memory),
                         Remaining(a.storage, u.storage), Remaining(a.gpu, u.gpu)),
               [])
  }

  predicate Listed(db: Db, pid: ProjectId, c: ClusterId) {
    pid in db.projects && db.projects[pid].cluster == c && pid in db.quotas && db.quotas[pid].status.Active()
  }

  function ProjectAllocations(db: Db, ids: seq<ProjectId>, c: ClusterId): seq<Allocation> {
    if ids == [] then []
    else if Listed(db, ids[0], c) then
      var name := db.projects[ids[0]].name;
      [Allocation(name, db.quotas[ids[0]].figures, [name])] + ProjectAllocations(db, ids[1..], c)
    else ProjectAllocations(db, ids[1..], c)
  }

  function Allocations(db: Db, c: ClusterId): seq<Allocation> {
    ProjectAllocations(db, db.order, c) + [CatchAll(db, c)]
  }

  function AllocationMessage(db: Db, c: ClusterId): Outgoing {
    Allocate(c, VendorOf(NodesOf(db, c)), Allocations(db, c))
  }

  function SumAllocations(s: seq<Allocation>): Resources {
    if s == [] then ZERO else s[0].figures.Plus(SumAllocations(s[1..]))
  }

  /** The last allocation of a message: whatever is available and not allocated, under the catch-all name. */
  lemma CatchAllExactly(db: Db, c: ClusterId)
    ensures var all := AllocationMessage(db, c).allocations; var free := Available(db, c).Minus(Allocated(db, c));
            && all != []
            && var last := all[|all| - 1];
               && last.name == "kaiwo" && last.namespaces == []
               && last.figures.cpu == (if free.cpu > 0 then free.cpu else 0)
               && last.figures.memory == (if free.memory > 0 then free.memory else 0)
               && last.figures.storage == (if free.storage > 0 then free.storage else 0)
               && last.figures.gpu == (if free.gpu > 0 then free.gpu else 0)
  {
  }

  lemma SumAllocationsPrepend(a: Allocation, s: seq<Allocation>)
    ensures SumAllocations([a] + s) == a.figures.Plus(SumAllocations(s))
  {
    assert ([a] + s)[1..] == s;
  }

  lemma {:induction false} SumAllocationsAppend(s: seq<Allocation>, a: Allocation)
    ensures SumAllocations(s + [a]) == SumAllocations(s).Plus(a.figures)
  {
    if s == [] {
      assert [a][1..] == [];
    } else {
      assert (s + [a])[1..] == s[1..] + [a];
      SumAllocationsAppend(s[1..], a);
    }
  }

  /** Project rows and quota rows agree on the cluster: what the sums need of the tables. */
  ghost predicate RowsMatch(db: Db, ids: seq<ProjectId>) {
    forall pid :: pid in ids ==>
      pid in db.projects && pid in db.quotas && db.quotas[pid].cluster == db.projects[pid].cluster
  }

  ghost predicate NamesDiffer(db: Db) {
    forall a, b {:trigger db.projects[a], db.projects[b]} :: a in db.projects && b in db.projects && a != b ==>
      db.projects[a].name != db.projects[b].name
  }

  lemma {:induction false} AllocationsSum(db: Db, ids: seq<ProjectId>, c: ClusterId)
    requires RowsMatch(db, ids)
    ensures SumAllocations(ProjectAllocations(db, ids, c)) == SumQuotas(db.quotas, ids, c)
  {
    if ids == [] {
    } else {
      var first, rest := ids[0], ids[1..];
      assert first in ids;
      assert RowsMatch(db, rest) by {
        forall pid | pid in rest ensures pid in ids {}
      }
      AllocationsSum(db, rest, c);
      if Listed(db, first, c) {
        var name := db.projects[first].name;
        SumAllocationsPrepend(Allocation(name, db.quotas[first].figures, [name]), ProjectAllocations(db, rest, c));
      } else {
        assert Weight(db.quotas, first, c) == ZERO;
        ZeroPlus(SumQuotas(db.quotas, rest, c));
      }
    }
  }

  /** An allocation is in the list exactly when some listed project has it. */
  lemma {:induction false} AllocationsMembers(db: Db, ids: seq<ProjectId>, c: ClusterId)
    ensures forall a :: a in ProjectAllocations(db, ids, c) <==>
              exists pid :: pid in ids && Listed(db, pid, c) &&
                a == Allocation(db.projects[pid].name, db.quotas[pid].figures, [db.projects[pid].name])
  {
    if ids == [] {
    } else {
      AllocationsMembers(db, ids[1..], c);
      assert ids == [ids[0]] + ids[1..];
    }
  }

  lemma {:induction false} AllocationNamesDistinct(db: Db, ids: seq<ProjectId>, c: ClusterId)
    requires Distinct(ids) && NamesDiffer(db)
    ensures forall i, j :: 0 <= i < j < |ProjectAllocations(db, ids, c)| ==>
              ProjectAllocations(db, ids, c)[i].name != ProjectAllocations(db, ids, c)[j].name
  {
    if ids == [] {
    } else {
      DistinctTail(ids);
      AllocationNamesDistinct(db, ids[1..], c);
      if Listed(db, ids[0], c) {
        var rest := ProjectAllocations(db, ids[1..], c);
        AllocationsMembers(db, ids[1..], c);
        forall j | 0 <= j < |rest| ensures rest[j].name != db.projects[ids[0]].name {
          assert rest[j] in rest;
        }
      }
    }
  }

  /**
   * Conservation: in every allocation message the figures add up to the larger of what
   * is available and what is allocated, the catch-all entry is never negative, and no
   * two entries share a name.
   */
  lemma AllocationConserves(db: Db, c: ClusterId, d: Dimension)
    requires RowsMatch(db, db.order) && Distinct(db.order) && NamesDiffer(db)
    requires forall pid :: pid in db.projects ==> ValidName(db.projects[pid].name)
    ensures var total := SumAllocations(Allocations(db, c)).Get(d);
            var available, held := Available(db, c).Get(d), Allocated(db, c).Get(d);
            total == if available > held then available else held
    ensures var all := Allocations(db, c);
            all[|all| - 1].name == CATCH_ALL && ZERO.Within(all[|all| - 1].figures)
    ensures var all := Allocations(db, c);
            forall i, j :: 0 <= i < j < |all| ==> all[i].name != all[j].name
  {
    AllocationsSum(db, db.order, c);
    SumAllocationsAppend(ProjectAllocations(db, db.order, c), CatchAll(db, c));
    AllocationNamesDistinct(db, db.order, c);
    AllocationsMembers(db, db.order, c);
    var ps := ProjectAllocations(db, db.order, c);
    forall i | 0 <= i < |ps| ensures ps[i].name != CATCH_ALL {
      assert ps[i] in ps;
    }
  }

  // ----- rows matching an allocation

  /** The first allocation of that name; the catch-all name never matches a quota. */
  function FirstNamed(allocations: seq<Allocation>, name: string): Option<Allocation> {
    if allocations == [] then None
    else if allocations[0].name == name && name != CATCH_ALL then Some(allocations[0])
    else FirstNamed(allocations[1..], name)
  }

  lemma {:induction false} FirstNamedFound(allocations: seq<Allocation>, name: string)
    ensures var r := FirstNamed(allocations, name);
            && (r.Some? ==> r.value in allocations && r.value.name == name && name != CATCH_ALL)
            && (r.None? <==> name == CATCH_ALL || forall a :: a in allocations ==> a.name != name)
  {
    if allocations != [] {
      assert allocations == [allocations[0]] + allocations[1..];
      FirstNamedFound(allocations[1..], name);
    }
  }

  /** It is the first of its name: none before it has it. */
  lemma {:induction false} FirstNamedFirst(allocations: seq<Allocation>, name: string, i: nat)
    requires i < |allocations| && allocations[i].name == name != CATCH_ALL
    requires forall j :: 0 <= j < i ==> allocations[j].name != name
    ensures FirstNamed(allocations, name) == Some(allocations[i])
  {
    if i > 0 {
      assert forall j :: 0 <= j < i - 1 ==> allocations[1..][j] == allocations[j + 1];
      FirstNamedFirst(allocations[1..], name, i - 1);
    }
  }
}
