/**
 * The agent's side of quotas: an allocation message becomes a queue configuration of
 * Kubernetes quantities, and a configuration is read back into allocations.
 */
module QueueConfig {
  import opened Domain

  /** A Kubernetes quantity, held in thousandths of its unit. */
  datatype Quantity = Quantity(milli: int) {
    function MilliValue(): int {
      milli
    }

    /** Whole units, rounded away from zero. */
    function Value(): int {
      if milli >= 0 then (milli + 999) / 1000 else -((-milli + 999) / 1000)
    }
  }

  /** The quantity written "<n>m". */
  function Millis(n: int): Quantity {
    Quantity(n)
  }

  /** The quantity written "<n>". */
  function Units(n: int): Quantity {
    Quantity(1000 * n)
  }

  datatype ResourceName =
    | CpuResource | MemoryResource | StorageResource | NvidiaGpu | AmdGpu | OtherResource(name: string)

  datatype ResourceQuota = ResourceQuota(name: ResourceName, nominal: Quantity)

  datatype ResourceGroup = ResourceGroup(covered: seq<ResourceName>, flavors: seq<seq<ResourceQuota>>)

  /** A cluster queue; the list of namespaces may be absent. */
  datatype ClusterQueue = ClusterQueue(name: string, namespaces: Option<seq<string>>, groups: seq<ResourceGroup>)

  function GpuName(v: Vendor): ResourceName {
    match v
    case Nvidia => NvidiaGpu
    case Amd => AmdGpu
  }

  function Covered(vendor: Option<Vendor>): seq<ResourceName> {
    [CpuResource, MemoryResource, StorageResource] + if vendor.Some? then [GpuName(vendor.value)] else []
  }

  function Queue(vendor: Option<Vendor>, a: Allocation): ClusterQueue {
    var resources := [ResourceQuota(CpuResource, Millis(a.figures.cpu)),
                      ResourceQuota(MemoryResource, Units(a.figures.memory)),
                      ResourceQuota(StorageResource, Units(a.figures.storage))]
      + if vendor.Some? then [ResourceQuota(GpuName(vendor.value), Units(a.figures.gpu))] else [];
    ClusterQueue(a.name, Some(a.namespaces), [ResourceGroup(Covered(vendor), [resources])])
  }

  function Build(vendor: Option<Vendor>, allocations: seq<Allocation>): (queues: seq<ClusterQueue>)
    ensures |queues| == |allocations|
  {
    seq(|allocations|, i requires 0 <= i < |allocations| => Queue(vendor, allocations[i]))
  }

  /** One resource entry read into the figures; unknown names are ignored. */
  function Absorb(r: Resources, entry: ResourceQuota): Resources {
    match entry.name
    case CpuResource => r.(cpu := entry.nominal.MilliValue())
    case MemoryResource => r.(memory := entry.nominal.Value())
    case StorageResource => r.(storage := entry.nominal.Value())
    case NvidiaGpu => r.(gpu := entry.nominal.Value())
    case AmdGpu => r.(gpu := entry.nominal.Value())
    case OtherResource(_) => r
  }

  function AbsorbAll(r: Resources, entries: seq<ResourceQuota>): Resources {
    if entries == [] then r else Absorb(AbsorbAll(r, entries[..|entries| - 1]), entries[|entries| - 1])
  }

  /** Only the first flavor of the first resource group is read. */
  function Read(q: ClusterQueue): Allocation {
    Allocation(q.name,
               if |q.groups| > 0 && |q.groups[0].flavors| > 0 then AbsorbAll(ZERO, q.groups[0].flavors[0]) else ZERO,
               if q.namespaces.Some? then q.namespaces.value else [])
  }

  function ReadBack(queues: seq<ClusterQueue>): (allocations: seq<Allocation>)
    ensures |allocations| == |queues|
  {
    seq(|queues|, i requires 0 <= i < |queues| => Read(queues[i]))
  }

  method BuildQueueConfig(vendor: Option<Vendor>, allocations: seq<Allocation>) returns (queues: seq<ClusterQueue>)
    ensures queues == Build(vendor, allocations)
  {
    var covered := [CpuResource, MemoryResource, StorageResource];
    match vendor {
      case Some(Nvidia) => covered := covered + [NvidiaGpu];
      case Some(Amd) => covered := covered + [AmdGpu];
      case None =>
    }
    assert covered == Covered(vendor);
    queues := [];
    for i := 0 to |allocations|
      invariant queues == Build(vendor, allocations)[..i]
    {
      var quota := allocations[i];
      var resources := [ResourceQuota(CpuResource, Millis(quota.figures.cpu)),
                        ResourceQuota(MemoryResource, Units(quota.figures.memory)),
                        ResourceQuota(StorageResource, Units(quota.figures.storage))];
      if vendor.Some? {
        resources := resources + [ResourceQuota(GpuName(vendor.value), Units(quota.figures.gpu))];
      }
      assert resources == Queue(vendor, quota).groups[0].flavors[0];
      queues := queues + [ClusterQueue(quota.name, Some(quota.namespaces), [ResourceGroup(covered, [resources])])];
    }
  }

  /**
   * The list a status message carries. The agent appends to a list that starts out
   * nil, which a configuration without cluster queues leaves as it is: the message then
   * holds null, and the control plane refuses it.
   */
  function Report(queues: seq<ClusterQueue>): Option<seq<Allocation>> {
    if queues == [] then None else Some(ReadBack(queues))
  }

  method ReadStatus(queues: seq<ClusterQueue>) returns (report: Option<seq<Allocation>>)
    ensures report == Report(queues)
  {
    report := None;
    for i := 0 to |queues|
      invariant report == if i == 0 then None else Some(ReadBack(queues)[..i])
    {
      var queue := queues[i];
      var figures := ZERO;
      if |queue.groups| > 0 {
        if |queue.groups[0].flavors| > 0 {
          var entries := queue.groups[0].flavors[0];
          for j := 0 to |entries|
            invariant figures == AbsorbAll(ZERO, entries[..j])
          {
            assert entries[..j + 1][..j] == entries[..j];
            match entries[j].name {
              case CpuResource => figures := figures.(cpu := entries[j].nominal.MilliValue());
              case MemoryResource => figures := figures.(memory := entries[j].nominal.Value());
              case StorageResource => figures := figures.(storage := entries[j].nominal.Value());
              case NvidiaGpu => figures := figures.(gpu := entries[j].nominal.Value());
              case AmdGpu => figures := figures.(gpu := entries[j].nominal.Value());
              case OtherResource(_) =>
            }
          }
          assert entries[..|entries|] == entries;
        }
      }
      var namespaces := if queue.namespaces.Some? then queue.namespaces.value else [];
      var before := if report.Some? then report.value else [];
      assert ReadBack(queues)[..i + 1] == ReadBack(queues)[..i] + [Read(queue)];
      report := Some(before + [Allocation(queue.name, figures, namespaces)]);
    }
    assert ReadBack(queues)[..|queues|] == ReadBack(queues);
  }

  /** The GPU entry of each vendor's clusters; none without a vendor. */
  predicate GpuEntry(vendor: Option<Vendor>, gpus: int, entry: seq<ResourceQuota>, covered: seq<ResourceName>) {
    match vendor
    case None => entry == [] && covered == []
    case Some(Nvidia) => entry == [ResourceQuota(NvidiaGpu, Quantity(1000 * gpus))] && covered == [NvidiaGpu]
    case Some(Amd) => entry == [ResourceQuota(AmdGpu, Quantity(1000 * gpus))] && covered == [AmdGpu]
  }

  /**
   * What is configured for each allocation: one queue of its name and namespaces, with one
   * group and one flavor, that covers CPU in thousandths, memory and storage in units, and
   * the GPUs of the vendor, if there is one, under that vendor's resource.
   */
  lemma BuildExactly(vendor: Option<Vendor>, allocations: seq<Allocation>, i: nat)
    requires i < |allocations|
    ensures var a, q := allocations[i], Build(vendor, allocations)[i];
            && q.name == a.name && q.namespaces == Some(a.namespaces)
            && |q.groups| == 1 && |q.groups[0].flavors| == 1
            && var entries, covered := q.groups[0].flavors[0], q.groups[0].covered;
               && |entries| >= 3 && |covered| >= 3
               && entries[..3] == [ResourceQuota(CpuResource, Quantity(a.figures.cpu)),
                                   ResourceQuota(MemoryResource, Quantity(1000 * a.figures.memory)),
                                   ResourceQuota(StorageResource, Quantity(1000 * a.figures.storage))]
               && covered[..3] == [CpuResource, MemoryResource, StorageResource]
               && GpuEntry(vendor, a.figures.gpu, entries[3..], covered[3..])
  {
  }

  /** The last entry of one of these names: the one that decides. */
  ghost predicate Decides(entries: seq<ResourceQuota>, i: nat, names: set<ResourceName>) {
    i < |entries| && entries[i].name in names && forall j :: i < j < |entries| ==> entries[j].name !in names
  }

  /** Whole units, with whatever is left over rounded away from zero. */
  predicate WholeUnits(milli: int, n: int) {
    if milli >= 0 then 1000 * (n - 1) < milli <= 1000 * n else 1000 * n <= milli < 1000 * (n + 1)
  }

  /**
   * What is read from a flavor: for each figure its last entry, CPU in thousandths and the
   * others in whole units, with the GPUs of either vendor in one figure.
   */
  lemma {:induction false} LastEntryRead(entries: seq<ResourceQuota>, i: nat)
    ensures var r := AbsorbAll(ZERO, entries);
            && (Decides(entries, i, {CpuResource}) ==> r.cpu == entries[i].nominal.milli)
            && (Decides(entries, i, {MemoryResource}) ==> WholeUnits(entries[i].nominal.milli, r.memory))
            && (Decides(entries, i, {StorageResource}) ==> WholeUnits(entries[i].nominal.milli, r.storage))
            && (Decides(entries, i, {NvidiaGpu, AmdGpu}) ==> WholeUnits(entries[i].nominal.milli, r.gpu))
  {
    if entries != [] {
      var n := |entries| - 1;
      if i < n {
        LastEntryRead(entries[..n], i);
        assert entries[..n][i] == entries[i];
      }
    }
  }

  /** A figure without an entry is 0. */
  lemma {:induction false} NoEntryRead(entries: seq<ResourceQuota>, name: ResourceName)
    requires forall e :: e in entries ==> e.name != name && (name.NvidiaGpu? ==> !e.name.AmdGpu?)
    ensures var r := AbsorbAll(ZERO, entries);
            && (name.CpuResource? ==> r.cpu == 0) && (name.MemoryResource? ==> r.memory == 0)
            && (name.StorageResource? ==> r.storage == 0) && (name.NvidiaGpu? ==> r.gpu == 0)
  {
    if entries != [] {
      assert entries[|entries| - 1] in entries;
      NoEntryRead(entries[..|entries| - 1], name);
    }
  }

  /** What survives the trip: without a vendor the queue has no GPU entry to read. */
  function Survives(vendor: Option<Vendor>, a: Allocation): Allocation {
    if vendor.Some? then a else a.(figures := a.figures.(gpu := 0))
  }

  lemma ReadQueue(vendor: Option<Vendor>, a: Allocation)
    ensures Read(Queue(vendor, a)) == Survives(vendor, a)
  {
    var entries := Queue(vendor, a).groups[0].flavors[0];
    var f := a.figures;
    assert Units(f.memory).Value() == f.memory && Units(f.storage).Value() == f.storage;
    assert Units(f.gpu).Value() == f.gpu;
    assert entries[..1] == [ResourceQuota(CpuResource, Millis(f.cpu))];
    assert entries[..2][..1] == entries[..1] && entries[..3][..2] == entries[..2];
    assert AbsorbAll(ZERO, entries[..1][..0]) == ZERO;
    assert AbsorbAll(ZERO, entries[..1]) == ZERO.(cpu := f.cpu);
    assert AbsorbAll(ZERO, entries[..2]) == ZERO.(cpu := f.cpu, memory := f.memory);
    assert AbsorbAll(ZERO, entries[..3]) == ZERO.(cpu := f.cpu, memory := f.memory, storage := f.storage);
    if vendor.None? {
      assert entries[..3] == entries;
    } else {
      assert entries[..|entries| - 1] == entries[..3];
    }
  }

  /**
   * Round trip: reading the built configuration gives back the allocations in order,
   * every GPU count becoming 0 when no vendor is set; so the list survives exactly when
   * a vendor is set or it asks for no GPUs.
   */
  lemma RoundTrip(vendor: Option<Vendor>, allocations: seq<Allocation>)
    ensures |ReadBack(Build(vendor, allocations))| == |allocations|
    ensures forall i :: 0 <= i < |allocations| ==>
              ReadBack(Build(vendor, allocations))[i] == Survives(vendor, allocations[i])
    ensures ReadBack(Build(vendor, allocations)) == allocations
       <==> vendor.Some? || forall a :: a in allocations ==> a.figures.gpu == 0
  {
    var back := ReadBack(Build(vendor, allocations));
    forall i | 0 <= i < |allocations| ensures back[i] == Survives(vendor, allocations[i]) {
      ReadQueue(vendor, allocations[i]);
    }
    if vendor.None? {
      if back == allocations {
        forall a | a in allocations ensures a.figures.gpu == 0 {
          var i :| 0 <= i < |allocations| && allocations[i] == a;
          assert back[i] == Survives(vendor, a);
        }
      } else {
        var i :| 0 <= i < |allocations| && back[i] != allocations[i];
        assert allocations[i] in allocations;
      }
    }
  }
}
