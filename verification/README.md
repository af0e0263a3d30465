# AIRM quota, project and namespace protocol: a verified model

AIRM shares out clusters among projects. The control plane (Python, one database
transaction per step) keeps a project row, a quota row and a namespace row per project
and one row per cluster node. It sends allocation, create-namespace and delete-namespace
messages to the agent of each cluster (Go); the agent applies them and reports back what
it sees. This project models that protocol as one state machine, together with three
smaller mechanisms that lean on it: the agent's finalizers, the admission webhooks that
track workloads, and the time grid of the metrics endpoints.

## How it is organised

| file | content |
|---|---|
| `Domain.dfy` | rows, messages, statuses |
| `Capacity.dfy` | totals, admission check, allocation message, conservation |
| `Lifecycle.dfy` | the transactions as functions on the tables, and what they do to each project |
| `Nodes.dfy` | node rows: the list, update and delete messages |
| `Consumer.dfy` | the dispatch of feedback, its pointwise effect, redelivery, staleness |
| `Outcomes.dfy` | what each transaction leaves in the tables and sends, said of the rows and messages themselves |
| `Outbox.dfy`, `Services.dfy` | the services as they run: a session class that writes row by row and a sender that is flushed after the commit, proved equal to the functions above |
| `QueueConfig.dfy` | allocations to Kueue quantities and back |
| `Protocol.dfy` | control plane, agents, clusters and network as one state machine, and its invariant |
| `Agent.dfy` | the agent's namespace handlers as they run, proved to be steps of that machine, and what they publish |
| `Runs.dfy` | deletion on evidence, absorption, status agreement, the deletion trap |
| `Removal.dfy` | the two orders of a deletion, the two confirmations in either order, and which deletions can finish: by any run, and under a living namespace |
| `AgentRemoval.dfy` | the exact condition for a deletion to finish by the agents' own steps, and what a lost flush does to it |
| `CapacitySafety.dfy` | capacity over runs, and what edits, deletions and messages do to a total exactly |
| `Overflows.dfy` | the need for each guard: runs from the empty system that break only one |
| `Convergence.dfy` | conservation in every message sent; convergence when the last allocation was flushed and comes back, whatever happens in between |
| `Races.dfy` | the deletion trap, a stale absence and a stranded deletion, reached from the empty system |
| `Finalizers.dfy` | publish first, then release, with stale caches |
| `Tracking.dfy` | workload and component ids along chains of owned objects |
| `Timeseries.dfy` | Prometheus samples on the grid |

Messages that reached the broker are kept in a set of everything ever published, and a
step may deliver any of them: late, twice, out of order or never. Between the commit and
the broker a message can be lost for good: the flush of a transaction gets through the
first messages it enqueued, as many as the broker takes, and nothing is flushed again. An
event sets how many that is, so a run may lose any part of any flush. Both controllers of
the agent may read a lagging cache: a namespace that has left may still be reported gone
after it was re-created, and a configuration the cluster had may still be published. The
clock ticks between any two steps; a message carries the instant at which it was
published.

## What the code does not guarantee

The model follows the code; these results show where a natural expectation fails, and
exactly when it holds.

- **The deletion trap.** A status message taken after the deletion mark that still names
  the quota turns it READY or FAILED (`apps/api/airm/app/quotas/service.py:143-165`).
  From then on no run removes the project (`Runs.TrappedForever`), and this does happen
  from the empty system (`Races.TrapReachable`). Some run, in which people act too,
  removes a project under deletion if and only if its quota is DELETING or DELETED
  (`Removal.RemovableIffQuotaInDeletion`).
- **Lost orders strand a deletion.** The deletion of a project sends its two orders once.
  If the flush fails after the commit, the delete order is never sent: a second request
  is refused and nothing else sends it (`Removal.OrderNeverResent`,
  `Removal.OrderSentExactly`). With both orders sent the agent's own steps suffice, the
  two confirmations coming in either order (`Removal.QuotaFirst`,
  `Removal.NamespaceFirst`). In general they suffice if and only if the quota is in
  deletion, something can still confirm that, and something can still report the
  namespace gone (`AgentRemoval.AgentRemovesExactly`); for a deletion accepted while the
  namespace stands, if and only if the flush got both orders through
  (`AgentRemoval.DeletionCompletesExactly`). A stranded deletion is reached from the
  empty system, and a broker that recovers does not help (`Races.LostFlushStrands`).
- **Stale absence.** Namespace notices carry no timestamp. One that predates the project
  lets it be removed while its namespace stays alive (`Races.StaleAbsenceReleases`). That
  is possible if and only if a notice of absence is on the way or was already taken, or
  a namespace of that name left before, so that the controller's cache may still show it
  gone (`Removal.RemovableWhileAliveExactly`).
- **Empty configurations.** A queue configuration without cluster queues is reported as
  `null`, which the control plane refuses, so it confirms nothing
  (`Runs.PublishesExactly`); a configuration under deletion is reported as an empty list.
- **Over-allocation.** An edit of a quota under deletion subtracts figures that were not
  counted, and an unchanged edit skips the check (`CapacitySafety.EditWithinExactly`). A
  snapshot that names such a quota brings its figures back
  (`CapacitySafety.SnapshotWithinExactly`). The schema does not refuse negative figures,
  and nodes may leave. Capacity is kept when none of the four happens
  (`CapacitySafety.CapacityOverRuns`), and a run from the empty system overflows with any
  one of them alone (`Overflows.EachGuardNeeded`).
- **Edits and status.** An edit does not recompute the project's status;
  `Runs.EditKeepsAgreement` says exactly when it stays right.
- **No GPU vendor.** Then GPU counts come back as 0, and the loop converges exactly when
  no active quota asks for GPUs (`Convergence.ConvergesExactly`).
- **A lost flush is repaired only by the next send.** If the flush after a committed node
  message fails, redelivery sends nothing (`Consumer.NodeMessageOnce`); nor does that of
  any other message (`Consumer.RedeliverySendsNothing`). A lost allocation is made good by
  the next one flushed for the cluster (`Convergence.SendRepairs`), and convergence holds
  for runs whose last allocation was flushed (`Convergence.ReachableConverges`).
- **Webhooks.** On CREATE the mutation is idempotent exactly when the object arrived with
  both ids (`Tracking.CreateIdempotentExactly`).
- **Silent release.** Reconciles can let an object go without a message exactly when some
  version they may still read names nothing to publish (`Finalizers.SilentReleaseExactly`).

## Model

| member | source | states |
|---|---|---|
| Capacity.ValidateQuota | apps/api/airm/app/quotas/utils.py:40-76 | The admission check reports exactly the dimensions in which the prospective total exceeds what is available, each once, and nothing exactly when the total fits. |
| Capacity.NodeJoins | apps/api/airm/app/clusters/service.py:340-371 | A node that joins a cluster adds its figures to what is available when it is ready; otherwise neither the total nor the catch-all changes. |
| Capacity.NodeFails | apps/api/airm/app/clusters/service.py:354-362 | A node that stops being ready takes exactly its figures out. |
| Capacity.QuotaCounts | apps/api/airm/app/clusters/service.py:355-369 | A project more adds the figures of its quota to what its cluster has allocated, unless the quota is DELETING or DELETED. |
| Capacity.MessageVendor | apps/api/airm/app/clusters/service.py:371-372 | An allocation message carries the vendor of the first row with GPUs, ready or not, and none when no row has any. |
| Capacity.CatchAllExactly | apps/api/airm/app/quotas/utils.py:105-133 | A message ends with the catch-all: in each dimension what is available and not allocated, or 0, and no namespaces. |
| Capacity.AllocationConserves | apps/api/airm/app/quotas/service.py:44-63 | In an allocation list the figures of each dimension add up to the larger of available and allocated; the catch-all comes last and is not negative; all names differ. |
| Capacity.FirstNamedFound | apps/api/airm/app/quotas/service.py:140-150 | The allocation that decides on a quota is one of its name, and there is none exactly when no allocation has the name; the catch-all name never matches. |
| Capacity.FirstNamedFirst | apps/api/airm/app/quotas/service.py:140-150 | When several allocations have a name, the first of them is the one that counts. |
| Services.Session.UpdateQuotaStatus | apps/api/airm/app/quotas/repository.py:58-71 | One row gets a status and a time, and a reason only when one is given; no other row changes. |
| Services.Session.UpdateQuota | apps/api/airm/app/quotas/repository.py:74-85 | The same with new figures. |
| Services.Session.UpdateProjectStatusFromComponents | apps/api/airm/app/projects/service.py:289-347 | The project is removed with its quota and namespaces exactly when it is DELETING and both components are DELETED; otherwise it gets the status its components call for. The branches for a missing quota or namespace are dead. |
| Services.Session.RemoveProject | apps/api/airm/app/projects/service.py:266-286 | Removal takes the project's quota and every namespace it owns, and keeps the other rows in order. |
| Services.Session.UpdateClusterQuotasFromAllocations | apps/api/airm/app/quotas/service.py:125-191 | The three passes of pops, writes and removals equal one verdict per quota of the cluster, for lists of any length and whatever order the remaining quotas are visited in. |
| Outcomes.SnapshotOutcome | apps/api/airm/app/quotas/service.py:125-191 | For every project: a named quota is READY when all four figures agree, else FAILED at the stamp with the mismatch as its reason and its figures kept; an unnamed active one is FAILED with no figures and the old telling reason or that it is missing; an unnamed one under deletion is DELETED now, or its project gone; newer quotas and other clusters keep everything; nothing is sent. |
| Outcomes.QuotaMessageRest | apps/api/airm/app/projects/service.py:266-286 | A quota message changes no node and no namespace row, but for those of the projects it removes. |
| Services.Session.PopNamed | apps/api/airm/app/quotas/service.py:139-165 | The first pass settles just the quotas that some allocation names, and leaves just the unnamed ones. |
| Services.Session.UpdatePendingQuotasToFailed | apps/api/airm/app/quotas/service.py:206-230 | Exactly the quotas of the cluster still PENDING since before the message fail, and their projects follow. |
| Outcomes.FailureOutcome | apps/api/airm/app/quotas/service.py:206-230 | For every project: a quota of the cluster that is PENDING from before the notice is FAILED at its stamp, with its reason if it has one and the old figures; every other project keeps everything. |
| Services.Session.UpdateProjectNamespaceStatus | apps/api/airm/app/namespaces/service.py:56-84 | The namespace of the project takes the status and the project follows or is removed; a project not on this cluster is an error. |
| Outcomes.NamespaceStateOutcome | apps/api/airm/app/namespaces/service.py:56-84 | For every project: the reported status is its namespace row's, and its own status follows, or it ends on the last confirmation; all others keep everything; a report for a project of another cluster is refused. |
| Services.Session.HandleNamespaceDeleted | apps/api/airm/app/namespaces/service.py:132-146 | An owned namespace is DELETED and its project follows or is removed; an unowned row is deleted; an unknown name is an error. |
| Outcomes.NamespaceGoneOutcome | apps/api/airm/app/namespaces/service.py:132-146 | The same for a notice by name, refused for an unknown name. |
| Services.Session.RecordUnmanagedNamespace | apps/api/airm/app/namespaces/service.py:105-129 | The name is recorded without an owner, unless a project owns it. |
| Outcomes.UnownedOutcome | apps/api/airm/app/namespaces/service.py:105-146 | The whole tables after a report on a namespace that no project owns: recorded with its state, or dropped when it is gone. |
| Services.Session.UpdateClusterNodes | apps/api/airm/app/clusters/service.py:114-146 | The rows become the synced rows; one allocation message is enqueued exactly when they differ; two reports of one name fail the message. |
| Outcomes.NodeListOutcome | apps/api/airm/app/clusters/service.py:114-146 | A row older than the list takes every field of the report of its name, GPU columns only with GPU information, and the stamp; if it differed in any, one allocation is sent. A row that agrees, or is as fresh, is left alone. |
| Outcomes.NodeListCreates | apps/api/airm/app/clusters/service.py:124-140 | A report that names no row becomes a new row with just its fields, and one allocation is sent. |
| Outcomes.NodeListDrops | apps/api/airm/app/clusters/service.py:141-146 | A row that no report names is dropped, and one allocation is sent. |
| Outcomes.NodeListRefused | apps/api/airm/app/clusters/service.py:138-140 | A list is refused exactly when two reports share a name, whatever its case. |
| Services.Session.UpdateClusterNode | apps/api/airm/app/clusters/service.py:149-158 | The row of exactly this name is updated or created, and one allocation message enqueued exactly when the rows differ. |
| Outcomes.NodeUpdateOutcome | apps/api/airm/app/clusters/service.py:149-158 | The row of exactly this name takes every field of the report and, if it differed, the stamp, and one allocation is sent; every other row is kept. |
| Outcomes.NodeUpdateCreates | apps/api/airm/app/clusters/service.py:156-158 | Without such a row a new one is added, and one allocation is sent. |
| Services.Session.DeleteClusterNode | apps/api/airm/app/clusters/service.py:161-167 | The row of exactly this name goes, and one allocation message is enqueued exactly when there was one. |
| Outcomes.NodeDeleteOutcome | apps/api/airm/app/clusters/service.py:161-167 | Exactly the rows of other names are left, and one allocation is sent exactly when there was one of this name. |
| Services.Session.CreateNewProject | apps/api/airm/app/projects/service.py:191-219 | Which error comes first, and on success the three new rows and the two messages in order. |
| Outcomes.CreateAccepted | apps/api/airm/app/projects/service.py:191-219 | Exactly when a project is created, with the name rules, the limit of 999 projects outside deletion and the four sums written out, and which refusal comes first. |
| Outcomes.CreateOutcome | apps/api/airm/app/projects/service.py:205-219 | The three rows a new project gets, all PENDING, and its two messages. |
| Outcomes.EmptyClusterRefuses | apps/api/airm/app/clusters/service.py:354-362 | Without a ready node and a quota in force every request with a positive figure is refused. |
| Services.Session.UpdateProjectQuota | apps/api/airm/app/quotas/service.py:89-122 | Changed figures that fit are stored as PENDING and sent; unchanged ones become READY and nothing is sent; figures that do not fit are refused. |
| Outcomes.EditOutcome | apps/api/airm/app/quotas/service.py:89-122 | After an accepted edit changed figures are PENDING and one allocation is sent; unchanged ones are READY and nothing is sent; the write time is now, and reason, cluster and all other rows stay. |
| Outcomes.EditAccepted | apps/api/airm/app/quotas/utils.py:40-76 | Exactly when an edit is accepted: unchanged, or each new sum within what is available once the old figures are subtracted. |
| Services.Session.SubmitDeleteProject | apps/api/airm/app/projects/service.py:257-263 | The quota becomes DELETING, the namespace TERMINATING and the project DELETING, with an allocation and a delete message; a project already DELETING is refused. |
| Outcomes.DeleteOutcome | apps/api/airm/app/projects/service.py:257-263 | The tables after an accepted deletion row by row, figures and reason kept, its two messages, and when it is refused. |
| Services.Session.Dispatch | apps/api/airm/app/messaging/consumer.py:92-145 | Every message type has the effect, the messages and the error of its transaction. |
| Services.Session.Conclude | apps/api/airm/app/messaging/sender.py:58-90 | Nothing is sent and the tables are restored if the handler or the commit fails; after a commit an in-order prefix of what was enqueued is sent, all of it exactly on success. |
| Services.Session.ProcessMessage | apps/api/airm/app/messaging/consumer.py:77-147 | Outbox safety of one delivery: commit, then flush, then acknowledgement; acknowledged exactly when committed and fully sent. |
| Services.Session.ServeRequest | apps/api/api_common/api_common/database.py:119-134 | The same for user requests. |
| Outbox.MessageSender.Flush | apps/api/airm/app/messaging/sender.py:39-55 | What was sent and what stays queued always make up what was queued; a flush stops early only where the broker breaks. |
| Protocol.StepSends | apps/api/airm/app/messaging/sender.py:39-90 | A step of the system adds to what was sent just the prefix of its messages that the broker takes; a transaction that fails sends nothing, and one that commits keeps its tables whatever is lost. |
| Lifecycle.ResolveExactly | apps/api/airm/app/projects/utils.py:37-83 | Which pairs of component statuses each project status stands for; anything unexpected is FAILED, and DELETING stays. |
| Lifecycle.SettledViews | apps/api/airm/app/projects/service.py:319-347 | Writing quotas and reviewing their projects, seen project by project: removed, reviewed, or untouched. |
| Lifecycle.SettledStructure | apps/api/airm/app/projects/service.py:266-286 | Removals keep one quota row and one namespace row per project. |
| Lifecycle.SettledOneMore | apps/api/airm/app/quotas/service.py:139-191 | Settling one more untouched project afterwards equals settling all of them at once: the step of the refinement. |
| Lifecycle.NamespaceSettledViews | apps/api/airm/app/namespaces/service.py:67-84 | A namespace write reaches its own project only, which is removed exactly when both its components are deleted. |
| Nodes.HasNodeChanged | apps/api/airm/app/clusters/utils.py:13-29 | A row has changed exactly when it differs from the report in name, status, readiness, CPU, memory or storage, or, when there is GPU information, in one of the five GPU fields. |
| Nodes.SyncRows | apps/api/airm/app/clusters/service.py:114-146 | The pop loop gives the synced rows, its flag says exactly whether they differ, and it fails exactly when two reports share a name up to case. |
| Nodes.SyncAchieves | apps/api/airm/app/clusters/service.py:114-146 | Exactly the named nodes are left, each with every field of its report or at least as fresh as the message, and a second application changes nothing. |
| Nodes.LowerExactly | apps/api/airm/app/clusters/service.py:118-125 | Two names are taken for one exactly when they differ at most in the case of ASCII letters. |
| Nodes.SyncedUnique | apps/api/airm/app/clusters/service.py:121-140 | Names stay unique up to case. |
| Nodes.UpdateRow | apps/api/airm/app/clusters/service.py:149-158 | A single-node update, without a staleness check, finds its row by exact name and says exactly whether anything changed. |
| Consumer.HandleEffect | apps/api/airm/app/messaging/consumer.py:92-145 | Every message, pointwise: the projects it concerns are written, then removed or reviewed; all others keep their rows; only allocations are sent. |
| Consumer.RejectedTouchesNothing | apps/api/airm/app/messaging/consumer.py:77-147 | A message that fails concerned no project. |
| Consumer.RowsStayUnique | apps/api/airm/app/clusters/service.py:114-167 | The unique index on node names holds after every message. |
| Consumer.RedeliveryIdempotent | apps/api/airm/app/quotas/service.py:125-230 | Handling any message a second time, at any later moment, leaves the same projects with the same statuses, figures and reasons. |
| Consumer.NodeMessageOnce | apps/api/airm/app/clusters/service.py:114-167 | A node list, update or deletion delivered again changes nothing and sends nothing, even if its first allocation was lost. |
| Consumer.RedeliverySendsNothing | apps/api/airm/app/messaging/consumer.py:77-147 | No message of any kind sends anything when it is delivered again. |
| Consumer.StaleFeedbackHarmless | apps/api/airm/app/quotas/service.py:131-136 | Quota feedback leaves alone every quota written after its stamp, on any clock; a time of last write moves back only where a quota under deletion is marked DELETED by a control plane whose clock is behind it. |
| QueueConfig.BuildQueueConfig | apps/agent/internal/quotas/utils.go:26-154 | The queue configuration, one cluster queue per allocation, GPUs covered only when a vendor is known. |
| QueueConfig.BuildExactly | apps/agent/internal/quotas/utils.go:26-110 | What each cluster queue holds: CPU in thousandths, memory and storage in units, and the GPUs under the resource of the vendor, NVIDIA or AMD, covered likewise. |
| QueueConfig.ReadStatus | apps/agent/internal/quotas/utils.go:178-222 | The allocations read back, from the first flavor of the first group only, unknown resources ignored, the last entry of a resource deciding; no list at all for a configuration without cluster queues. |
| QueueConfig.LastEntryRead | apps/agent/internal/quotas/utils.go:178-222 | For each figure the last entry of its resource is read, in whole units rounded away from zero, the GPUs of either vendor as one figure. |
| QueueConfig.NoEntryRead | apps/agent/internal/quotas/utils.go:178-222 | A figure without an entry is 0. |
| QueueConfig.RoundTrip | apps/agent/internal/quotas/utils.go:26-222 | Reading what was built gives the allocations in order, GPU counts becoming 0 without a vendor; the list survives if and only if a vendor is set or it asks for no GPU. |
| Protocol.StepInv | apps/api/airm/app/projects/service.py:289-347 | Every step of the system keeps the invariant and removes a project only on delivery of a message, on evidence. |
| Protocol.StepProjects | apps/api/airm/app/projects/service.py:191-347 | What one step does to every project, and that a new one carries an unused id. |
| Protocol.StepHistory | apps/agent/internal/namespaces/handler.go:73-184 | Observations, deletion marks and ids are never lost or reused. |
| Protocol.DropInv | apps/agent/internal/namespaces/handler.go:73-184 | The agent's delete handler reports DELETED only on an absent or foreign namespace, after the request. |
| Agent.NamespaceHandler.HandleCreate | apps/agent/internal/namespaces/handler.go:39-70 | Creating a namespace is the protocol's step: labelled with its project, or reported FAILED. |
| Agent.NamespaceHandler.HandleDelete | apps/agent/internal/namespaces/handler.go:73-184 | Deleting one is the protocol's step, in all its outcomes. |
| Agent.NamespaceHandler.HandleDeletion | apps/agent/internal/namespaces/utils.go:83-103 | TERMINATING is published and then the finalizer released, and only as long as the finalizer is there. |
| Agent.NamespaceHandler.Reconcile | apps/agent/internal/namespaces/controller.go:25-70 | The controller's pass, on a cache that may lag, is the protocol's step, with the finalizer added before anything is reported and released after TERMINATING. |
| Agent.ReconcileOutcome | apps/agent/internal/namespaces/controller.go:25-70 | What the controller reports and leaves: each known phase as the status of its name, any other as FAILED, for the project of the label or else under the name. |
| Agent.MakeOutcome | apps/agent/internal/namespaces/handler.go:39-70 | What the create handler reports and leaves. |
| Agent.DropOutcome | apps/agent/internal/namespaces/handler.go:73-184 | What the delete handler reports and leaves in each case: DELETED, DELETE_FAILED or nothing. |
| Agent.QuotaMessages | apps/agent/internal/quotas/utils.go:178-230 | Quota messages carry the instant of their publication, and a failure its reason. |
| Runs.ReachableShape | apps/api/airm/app/projects/service.py:319-347 | In every reachable state each project has exactly one namespace row and one quota row on its cluster, quotas are in deletion only under projects in deletion, and no project is left with both components deleted. |
| Runs.RemovalOnEvidence | apps/api/airm/app/projects/service.py:289-316 | Whenever a run removes a project, deletion had been requested, a snapshot no older than the request does not name it, and its namespace was seen or read to be gone, or, since the request, labelled for something else. |
| Runs.ObservationsTrue | apps/agent/internal/namespaces/handler.go:73-184 | Every recorded observation was true of the cluster when it was made, or is what a lagging cache may show: a namespace that left, a configuration the cluster had. |
| Runs.CachesTrue | apps/agent/internal/namespaces/controller.go:25-40 | What the caches may show was so at some time: such a namespace was there and left, such a configuration was the cluster's. |
| Runs.PublishesExactly | apps/agent/internal/quotas/utils.go:178-222 | A status message reaches the control plane exactly when the configuration has a cluster queue. |
| Runs.DeletingAbsorbing | apps/api/airm/app/projects/utils.py:37-39 | A project under deletion never takes another status, and its id never returns. |
| Runs.TrappedForever | apps/api/airm/app/quotas/service.py:152-165 | A project under deletion whose quota left deletion is never removed, by any run. |
| Runs.NamingSnapshotTraps | apps/api/airm/app/quotas/service.py:139-191 | Of the snapshots accepted for a quota under deletion, exactly those that name it spring the trap. |
| Removal.InstructedRun | apps/api/airm/app/projects/service.py:257-263 | After a deletion whose flush got both messages through, the order to delete the namespace and an allocation without the quota are out for as long as the project is there. |
| Removal.FlushedDeletion | apps/api/airm/app/messaging/sender.py:39-55 | A flush that gets both messages of a deletion through sends the two orders; any other does not send the delete order. |
| Removal.OrderNeverResent | apps/api/airm/app/projects/utils.py:32-34 | A delete order that was lost is sent by no run whatever: a second deletion is refused. |
| Removal.OrderSentExactly | apps/api/airm/app/projects/service.py:257-263 | For every accepted deletion and every run after it: the delete order is out if and only if the flush of that request got both messages through. |
| Removal.AgentConfirmsQuota | apps/agent/internal/quotas/utils.go:156-222 | By applying such an allocation and publishing, the agent has the quota marked DELETED and touches nothing else of the project. |
| Removal.AgentConfirmsNamespace | apps/agent/internal/namespaces/handler.go:73-184 | By its delete handler, finalizer and controller the agent has the namespace marked DELETED, whatever state the namespace is in, and touches nothing else of the project. |
| Removal.QuotaFirst | apps/api/airm/app/projects/service.py:289-347 | From any state in which the two orders of this project were sent, whatever was lost for others, the agent confirms the quota, then the namespace, and the project is gone. |
| Removal.NamespaceFirst | apps/api/airm/app/namespaces/service.py:67-84 | The same with the namespace first. |
| AgentRemoval.AgentRemovesExactly | apps/api/airm/app/projects/service.py:289-316 | From any state the agents' own steps can remove a project under deletion if and only if its quota is in deletion, something can still confirm it (a snapshot on its way, a configuration that omits it, a sent allocation or pending node news that will send one), and something can still report the namespace gone (a notice, an order, a namespace that left or is leaving). |
| AgentRemoval.QuotaStuckRun | apps/api/airm/app/quotas/service.py:143-191 | Where nothing can confirm the quota's deletion, or it left deletion, that stays so in every run of the agents' own steps. |
| AgentRemoval.NamespaceStuckRun | apps/agent/internal/namespaces/handler.go:73-184 | Where nothing can report the namespace gone, that stays so in every such run. |
| AgentRemoval.DeletionCompletesExactly | apps/api/airm/app/messaging/sender.py:39-55 | A deletion accepted on a cluster with a configuration, while its namespace stands, can be completed by the agents' own steps if and only if the flush got both messages through. |
| Removal.RemovableIffQuotaInDeletion | apps/api/airm/app/projects/service.py:289-316 | From any state, some run removes a project under deletion if and only if its quota is DELETING or DELETED. |
| Removal.RemovableWhileAliveExactly | apps/api/airm/app/namespaces/service.py:132-146 | Some run removes a project while its namespace stays there and labelled with it, if and only if its quota is in deletion, and a notice of absence is on the way or was taken or the namespace left before and may still be read as gone. |
| Removal.EndsOnNotice | apps/api/airm/app/namespaces/service.py:56-84 | A namespace row turns DELETED, or its project ends before it did, only on delivery of such a notice. |
| Runs.FeedbackRestoresAgreement | apps/api/airm/app/projects/service.py:319-347 | A message that writes a component brings the project's status back in line. |
| Runs.AgreementWithoutEdits | apps/api/airm/app/projects/utils.py:37-83 | In every run without quota edits each project's status is the one its components call for. |
| Runs.ReadyExactly | apps/api/airm/app/projects/utils.py:37-83 | So a project outside deletion is READY if and only if its namespace is ACTIVE and its quota READY. |
| Runs.EditKeepsAgreement | apps/api/airm/app/projects/service.py:222-227 | Exactly when an accepted edit leaves the status in line. |
| CapacitySafety.EditAllocated | apps/api/airm/app/quotas/service.py:89-122 | What an accepted edit does to the total of its cluster, for active quotas and quotas under deletion alike, and that other clusters keep theirs. |
| CapacitySafety.DeleteAllocated | apps/api/airm/app/clusters/service.py:224-237 | A deletion takes exactly the counted figures of the project out of the total. |
| CapacitySafety.FeedbackAllocated | apps/api/airm/app/quotas/service.py:125-191 | What any message does to any cluster's total: revived figures come in, emptied ones go out, nothing else. |
| CapacitySafety.SnapshotWithinExactly | apps/api/airm/app/quotas/service.py:139-191 | Exactly when a cluster is within capacity after a snapshot. |
| CapacitySafety.CapacityStep | apps/api/airm/app/quotas/utils.py:40-76 | Every step that respects the four guards on a cluster keeps that cluster within capacity, whatever it does to others. |
| CapacitySafety.CapacityOverRuns | apps/api/airm/app/clusters/service.py:340-389 | Every guarded run keeps allocated at or below available in all four dimensions. |
| CapacitySafety.EditWithinExactly | apps/api/airm/app/quotas/utils.py:51-56 | Exactly when an accepted edit stays within capacity. |
| Overflows.EditOfDeletingOverflows | apps/api/airm/app/quotas/utils.py:51-56 | A run from the empty system breaks no guard but that on edits of quotas under deletion, and overflows. |
| Overflows.NamingSnapshotOverflows | apps/api/airm/app/quotas/service.py:152-165 | The same for a snapshot, published by the agent, that names a quota under deletion. |
| Overflows.NegativeFiguresOverflow | apps/api/airm/app/quotas/utils.py:40-76 | The same for negative figures. |
| Overflows.NodeLossOverflows | apps/api/airm/app/clusters/service.py:161-167 | The same for a node that leaves. |
| Overflows.EachGuardNeeded | apps/api/airm/app/quotas/utils.py:40-76 | So none of the four guards can be dropped. |
| Convergence.EnqueuedWithTables | apps/api/airm/app/quotas/service.py:38-63 | Every allocation message enqueued is the one the tables of its transaction call for. |
| Convergence.SentWithTables | apps/api/airm/app/messaging/sender.py:39-55 | So is every allocation message sent. |
| Convergence.SendRepairs | apps/api/airm/app/quotas/service.py:38-63 | A flush that gets an allocation for a cluster through sends what the tables call for, whatever was lost before. |
| Convergence.CompletesExactly | apps/api/airm/app/messaging/sender.py:39-55 | The allocation of a transaction is lost exactly when the broker takes none of its messages, since it comes first. |
| Convergence.SentConserves | apps/api/airm/app/quotas/utils.py:105-133 | Conservation for every allocation message any run sends. |
| Convergence.EchoNames | apps/agent/internal/quotas/utils.go:178-222 | What the cluster publishes after applying the message names exactly the active quotas, with their figures up to GPUs. |
| Convergence.Converges | apps/api/airm/app/quotas/service.py:125-191 | Whenever a snapshot that gives a project its current share, and is no older than the last write of its quota, is handled: an active quota keeps its figures and is READY, or FAILED for want of a vendor; a quota under deletion is DELETED, or its project gone exactly when its namespace was DELETED. |
| Convergence.ConvergesExactly | apps/agent/internal/quotas/utils.go:61-72 | On such a snapshot all active quotas of the cluster converge if and only if a vendor was known or none of them asks for GPUs. |
| Convergence.ScheduleConverges | apps/api/airm/app/quotas/service.py:38-191 | Apply, publish and deliver with any events in between: if the configuration stood until publication, every project that kept its share, with a quota not written since, is settled. |
| Convergence.ScheduleConvergesExactly | apps/agent/internal/quotas/utils.go:26-230 | The if and only if over every such schedule. |
| Convergence.LeftAloneKeepsShare | apps/api/airm/app/quotas/service.py:125-191 | A run without requests for a project, and without snapshots that empty, revive or end it, keeps its share. |
| Convergence.CurrentOverRuns | apps/api/airm/app/quotas/service.py:38-122 | In every run whose last allocation for the cluster was flushed and whose shares were not disturbed since, whatever was lost before, the message the tables call for has been sent, unless the cluster has neither projects nor anything to allocate. |
| Convergence.ReachableApplies | apps/api/airm/app/quotas/service.py:38-63 | So after any such run, a cluster with a configuration and a project can apply that message. |
| Convergence.ReachableConverges | apps/api/airm/app/quotas/service.py:38-191 | And every schedule that leaves the configuration alone until publication settles every project that kept its share. |
| Races.TrapReachable | apps/api/airm/app/quotas/service.py:143-165 | The trap is reached from the empty system. |
| Races.StaleAbsenceReleases | apps/api/airm/app/namespaces/service.py:132-146 | From the empty system a state is reached in which a run removes a project while its namespace is alive and labelled with it throughout; the notice is older than the project. |
| Races.LostFlushStrands | apps/api/airm/app/messaging/sender.py:39-55 | From the empty system, with a broker that takes none or one of the messages of a deletion, a state is reached in which the deletion was accepted and no run of the agents' own steps removes the project, even once the broker recovers. |
| Finalizers.PublishedBeforeReleased | apps/agent/internal/workloads/common/utils.go:27-46 | In every interleaving, stale reads and failures included, an object that lost its finalizer had its deletion published or a version that named nothing; nothing is published of an object not under deletion. |
| Finalizers.AnnouncedBeforeReleased | apps/agent/internal/secrets/common/utils.go:165-186 | With labels valid throughout deletion, an object that lost its finalizer has the announcement of one of its held versions published. |
| Finalizers.SilentReleaseExactly | apps/agent/internal/workloads/common/utils.go:37-45 | Exactly when reconciles can release an object without a message. |
| Finalizers.ReleaseSucceeds | apps/agent/internal/workloads/common/utils.go:27-46 | One undisturbed reconcile publishes and releases, and the object leaves unless others hold it. |
| Finalizers.ReconcileWrites | apps/agent/internal/common/utils.go:35-74 | What a reconcile leaves of an object, whatever version it read: the list as read with the finalizer added, or dropped once nothing is left to publish; nothing when a publish or patch fails. |
| Finalizers.DeletionSays | apps/agent/internal/workloads/common/utils.go:27-46 | What is published of an object under deletion: which label names it, and when none does. |
| Finalizers.Controller.RemoveFinalizer | apps/agent/internal/common/utils.go:35-53 | The finalizer is dropped from the copy and the whole list patched. |
| Finalizers.Controller.AddFinalizerIfNeeded | apps/agent/internal/common/utils.go:56-74 | The finalizer is added by a patch of the whole list, unless the copy has it. |
| Finalizers.Controller.HandleDeletion | apps/agent/internal/workloads/common/utils.go:27-46 | Publish, then release; a failed publish keeps the finalizer. |
| Finalizers.Controller.ReconcileCopy | apps/agent/internal/workloads/deployment/controller.go:26-46 | A reconcile is a step of the finalizer protocol. |
| Tracking.AdmitIds | apps/agent/internal/workloads/common/webhook_utils.go:29-61 | Ids never end up empty, an id an object has is never replaced, and templates carry the object's ids. |
| Tracking.AdmitLabels | apps/agent/internal/workloads/common/webhook_utils.go:15-75 | Every label afterwards: where each id comes from, the project of the namespace, the queue; all others stay. |
| Tracking.AdmitAnnotates | apps/agent/internal/workloads/common/webhook_utils.go:63-89 | Every annotation afterwards: who is the submitter, what is marked and how; all others stay. |
| Tracking.AdmitTemplates | apps/agent/internal/workloads/cronjob/webhook.go:43-51 | Which templates change, and in which labels only. |
| Tracking.UpdateKeepsIdentity | apps/agent/internal/workloads/common/webhook_utils.go:38-46 | An update that keeps or drops the ids keeps the stored identity. |
| Tracking.UpdateIdempotent | apps/agent/internal/workloads/common/webhook_utils.go:15-99 | Admitting a webhook's result as an update changes nothing. |
| Tracking.CreateIdempotentExactly | apps/agent/internal/workloads/common/webhook_utils.go:76-84 | On creation it changes nothing if and only if the object arrived with both ids. |
| Tracking.ChainSharesIdentity | apps/agent/internal/workloads/deployment/webhook.go:43-45 | Along a chain of any length every object has the root's ids and no owned object is marked auto-discovered. |
| Tracking.OnlyRootMarked | apps/agent/internal/workloads/common/webhook_utils.go:63-89 | The marked objects of a chain are just a root that arrived without both ids. |
| Tracking.EditsKeepIdentity | apps/agent/internal/workloads/common/webhook_utils.go:29-89 | Through any number of updates that keep or drop the ids, the identity stays and annotations are left alone. |
| Tracking.Decoded.EnsureWorkloadAndComponentIds | apps/agent/internal/workloads/common/webhook_utils.go:29-61 | Missing ids come from the stored object, else from the generator; the result says whether both existed. |
| Tracking.Decoded.ApplyTrackingMetadata | apps/agent/internal/workloads/common/webhook_utils.go:63-89 | The project label and the two annotations. |
| Tracking.Decoded.Handle | apps/agent/internal/workloads/cronjob/webhook.go:43-51 | The webhook of each kind, in place. |
| Timeseries.GridShape | apps/api/airm/app/metrics/utils.py:108-113 | The grid starts at the whole second of the start, rises by the step, and reaches as far as the end allows. |
| Timeseries.GridBound | apps/api/airm/app/metrics/utils.py:60-72 | With the automatic step a range of up to eight days has at most 289 points, 61 up to an hour, 193 beyond a day, each of them reached. |
| Timeseries.LastOnIsLast | apps/api/airm/app/metrics/utils.py:144-147 | The reading of a point is on the grid, not NaN, and none follows it; absent exactly when there is none. |
| Timeseries.Overlay | apps/api/airm/app/metrics/utils.py:143-147 | Each point of the grid gets the last reading on it, and otherwise keeps its value. |
| Timeseries.SortedKeys | apps/api/airm/app/metrics/utils.py:152-152 | The keys of the datapoints in increasing order. |
| Timeseries.MapTimeseriesSplitByProject | apps/api/airm/app/metrics/utils.py:116-166 | One series per known project, on exactly the grid in increasing order: the last reading, else 0 where the first unlabelled series has one, else missing. |
| Timeseries.GapsFilled | apps/api/airm/app/metrics/utils.py:124-147 | The value of a project at each point: its own last reading, else 0 where the first unlabelled series has a reading on that second, else missing. |
| Timeseries.ByProjectShape | apps/api/airm/app/metrics/utils.py:137-154 | The mapped series are exactly those of known projects, each over the whole grid. |
| Timeseries.MapMetricsTimeseries | apps/api/airm/app/metrics/utils.py:169-208 | All series overwrite one grid; the last series with a reading wins. |
| Timeseries.LastSeriesWins | apps/api/airm/app/metrics/utils.py:169-208 | The value at each point is that of the last series with a reading there. |
| Timeseries.ParseDeviceRangeTimeseries | apps/api/airm/app/metrics/utils.py:248-276 | One series per device with a UUID and a host, the last of a device deciding, missing points empty. |
| Timeseries.LastOfDevice | apps/api/airm/app/metrics/utils.py:248-276 | The series of a device is the last one with its UUID, host and GPU id, a missing id reading as empty. |

## Left out

- Clusters as rows: creating, editing and deleting a cluster, heartbeats and health. A cluster is an id, its health a parameter of a create request, and a message of an unknown or unauthenticated cluster (which changes nothing) does not occur.
- Keycloak: a failed group deletion is swallowed by the code; a failed group creation aborts the request like any other error.
- Secrets, storages and workloads in the control plane: their status aggregation, and the recalculation after a project is removed.
- Reasons of projects and namespaces, descriptions and audit columns: a quota's reason keeps the figures it quotes and whether it is empty.
- Concurrent database transactions: transactions are serial, since nothing in the code locks rows.
- Widths of integer columns: figures are unbounded integers, in the database, in messages and in quantities.
- Case folding of node names: ASCII only.
- The order in which the database returns nodes: the rows of a cluster are a sequence, new ones last.
- Queue configurations besides the list of cluster queues: resource flavors, workload priority classes and the rest of the manifest; quantities are exact multiples of a thousandth.
- Clock skew: one clock stamps database rows and agent messages in the protocol. Agents and database have their own in the source, so "no older than" compares stamps, not instants; Consumer.StaleFeedbackHarmless alone holds on any clocks.
- Re-creation of a Kubernetes object under the name of one that left: an object of the finalizer protocol has one life.
- Cleanup tools that strip finalizers, and whoever else removes another controller's finalizer: excluded, since they bypass the protocol on purpose.
- The UUID parser and generator: the parser is a parameter, and generated ids are only known not to be empty.
- Services.Session.FailMissing: the passes over the remaining quotas visit them in an arbitrary order, which stands for the dictionary's; the result does not depend on it.
- Timeseries.GridShape: timestamps and steps are whole microseconds; a step that is not, and the rounding of floating-point seconds, are not modelled.
- Timeseries.ByProjectShape: readings are NaN, infinities or reals; the parsing of numbers is not modelled.
- Status functions of each workload kind, manifests, kubeconfig, PromQL, log streaming, routers and user interface: plumbing without an invariant that spans operations.
- Runs.ObservationsTrue: of the controllers' lagging caches the protocol models the absence of a namespace and the configuration; a stale label or phase of a living namespace, which decides no removal, is read from the cluster itself.
- Agent.NamespaceHandler.Reconcile: its cache may fail to show a re-created namespace, but not show a stale label or phase; the role binding it ensures afterwards is not modelled.
- Convergence.CurrentOverRuns: a cluster that never had a project, a node or a deletion has been sent no message, since only those send one.
