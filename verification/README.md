# Labcontainers: protocols, verified

Labcontainers runs disposable network labs: containers and virtual machines that Containerlab wires together, driven
by a local daemon (`labd`). What is hard about it are small protocols with durable state, each guarding an outside
world that can fail halfway. This project models those protocols in Dafny 4.11 and proves what they promise over
whole runs.

How the outside world is modelled: every command, file write and guest call either does what it says, or fails
without effect, or fails after part of its effect. Where a stop of the daemon between two effects matters, the
state is a datatype, every effect is a `Step` with a `Guard` (what the daemon must have established before it) and an
`Effect` (everything the world may make of it), a `Run` is any sequence of such steps, and the main theorems are about
every point of every run. The daemon's operations are methods of, or on, a class that holds the real fields; each effect
they perform is proved to keep its guard, so every execution, and every prefix of one, is a run. A class may be
`faulty`; when it is not, nothing outside fails, and then its operations are proved to succeed whenever they may.

| file | what it holds |
|---|---|
| `Records.dfy` | the persisted session record |
| `Host.dfy` | one session on its host: effects, runs, and the theorems about the fault ledger, nodes and disks |
| `Faults.dfy` | ApplyFault and RevertFault: the rollback record is stored before the network is touched |
| `Reconcile.dfy` | CreateSession and ApplyTopology: approved plans, the union of old and new nodes, restoring the draft |
| `Lifecycles.dfy` | node lifecycle, replacement, destruction |
| `Timeline.dfy` | timelines with any calls of others in between, and their undo |
| `Attachments.dfy` | journals of bridge memberships across overlapping outages |
| `GuestChannel.dfy` | the guest agent's channel: replies matched to requests across connections |
| `GuestExec.dfy` | commands in a guest: no process record is left behind |
| `GuestUpload.dfy` | files stored through the guest agent |
| `Daemon.dfy` | leases, keeps, clean-up, and when `labd` exits by itself |
| `Naming.dfy` | session names as lab names |
| `Yaml.dfy`, `Preparation.dfy`, `Rewriting.dfy`, `PreparationLaws.dfy` | the rewriting of a topology into a private one: trees, what it is, the loops that do it, what it promises |
| `Drafts.dfy`, `DraftLaws.dfy` | binds planned from the request and rebuilt from the record; drafting a topology again |
| `Site.dfy` | the order in which a k0s site is built |
| `Wait.dfy` | polling within a budget |
| `ShellQuote.dfy` | the quoted shell command of Put, read back as the shell reads it |
| `OpenObject.dfy` | typed objects that keep unknown keys |

Where the code does not meet what one would expect of it, the model follows the code and a theorem says exactly when
the expectation holds:

- `Daemon.ExitLeavesNothingIff`, `Daemon.CheckNeverSuffices`: an exiting daemon leaves nothing exactly when nothing is
  stored and no CreateSession is in flight at the moment its server stops accepting. The check that lets it go lists
  the store earlier, and without the lock, so it never rules that out; `Daemon.AbandonedSessionExists` gives the runs.
- `Naming.SanitizeTwiceIff`, `PreparationLaws.PreparingAgainIff`, `DraftLaws.RedraftIff`: a name that the cut at 48
  characters leaves ending in a separator is renamed by the next preparation; only then.
- `DraftLaws.RedraftAfterReplaceIff`: after a replacement with first boot data, a new draft agrees with the stored
  topology exactly when, besides, the node did not list that very bind already; `DraftLaws.ListedBindExists` gives a
  session. The bind names a path in the session's own directory, so a source that lists it knew that directory.
- `DraftLaws.AbandonedReplaceIff`: a replacement that fails between writing the bind and saving the record leaves a
  stored topology that a new draft does not reproduce, unless the bind was there before;
  `DraftLaws.AbandonedReplaceExists` gives a session.
- `GuestExec.OwnRecordIff`, `GuestExec.Execute`: a command receives its own result exactly when no older record has
  its process ID; only a guest-exec whose reply is lost, or names no process, can leave a record without a clean-up
  failure being reported, and `GuestExec.LostReplyMisleads` gives such a run.
- `Site.Build.Run`: a probe for a unit file that is not answered counts as "not installed". A member that has one is
  installed again exactly when each of its checks, one for the first member and two for a joiner, is answered no for
  both files. `Site.DenialReinstalls` gives the run for any member of any site, `Site.OneDenialIsNotEnough` the joiner
  that is denied only once.

## Model

| member | source | states |
|---|---|---|
| Host.WriteAheadCoverage | internal/server/server.go:417-460 | At every point of every run, an endpoint off its baseline has exactly one active link-state record, which would put it back, and an impaired endpoint has an active netem record. |
| Host.RunKeepsInv | internal/server/server.go:388-511 | The ledger covers the network, every active fault is revertible, and the record names every container, whatever failed and wherever the daemon stopped. |
| Host.SaveKeepsInv | internal/session/store.go:101-133 | Replacing the stored record by a legal successor keeps the ledger complete and unambiguous. |
| Host.StoredFaultsAreRevertible | internal/server/server.go:485-504 | No active fault can be of an unknown kind or on a node that is gone: those branches of the revert are unreachable. |
| Host.RuntimeStaysAddressable | internal/server/apply.go:107-143 | Every node that may have a container is a key of the persisted node map. |
| Host.SettledForever | internal/server/server.go:464-511 | A fault that was reverted once is never active again. |
| Host.KnownForever | internal/session/store.go:31-53 | An id that a record used once is never unused again. |
| Host.RevertingAllRestores | internal/server/server.go:473-511 | Once every fault was reverted, in any order, with any retries and stops, links and impairments are back at the baseline. |
| Host.HeldDisksSurvive | internal/server/server.go:796-814 | While a node keeps a container, running or stopped, none of its disk files is truncated. |
| Host.SessionHost.SaveRecord | internal/session/store.go:107-133 | Storing a record replaces it as a whole; a reported failure may still have landed. |
| Host.SessionHost.SetLinkState | internal/server/server.go:440-460 | A link is only changed while an active link-state record holds its endpoint. |
| Faults.ApplyFault | internal/server/server.go:388-462 | The store of the new record, with the observed prior state, comes first in the log, then the one backend call; a failed store touches nothing, an ambiguous backend leaves the record active, only the requested endpoint can change, and a feasible request succeeds unless something outside fails. |
| Faults.Prepare | internal/server/server.go:388-437 | A request is prepared exactly if it names an existing node and interface and its link, if it has one, can be observed and has no active fault, apart from failures outside; then the record to store is determined by the request and the observed state. |
| Faults.LinkFaultOn | internal/server/server.go:423-427 | Finds whether some active link-state fault is on the endpoint, whatever order the map is walked in. |
| Faults.RevertFault | internal/server/server.go:464-511 | The call that undoes the fault comes first in the log, then the store of the record with exactly this fault closed; a reverted fault is left alone, success means the fault is settled and its endpoint is as recorded, and a known fault is reverted unless something outside fails. |
| Reconcile.ResetDisks | internal/server/server.go:796-814 | Truncates a node's disks in order up to the first failure, and only while the node has no container. |
| Reconcile.CreateSession | internal/server/server.go:157-205 | Storing the record is the first effect of all. Whatever is stored has exactly the prepared nodes with the control, disks and boot data that the request gives each, and no faults. Success means fresh disks, written boot data, a file found valid before its deployment and a lab found isolated after it, and all nodes running; a deployment that is not accepted is taken down. |
| Reconcile.ApplyTopology | internal/server/apply.go:21-144 | Every deployment is of the very file that was found valid and whose plan equals the approved one, owned and free of active faults. Before it, errors take the draft back and leave the record as it was, unless the store fails for a union that landed. After it a failure keeps the union of old and new nodes, and success stores exactly the new ones: retained nodes with their disks, boot data and control, apart from a requested one, new nodes as bare containers, all running; cables and isolation were checked before. It goes through unless a check refuses it or something outside fails. |
| Reconcile.DesiredNodes | internal/server/apply.go:45-66 | A change is accepted exactly for a desired node, without disks or boot data and with a control that there is; each desired node keeps what the record has of it, or is a bare container, and gets the control asked for. |
| Reconcile.DesiredReached | internal/server/apply.go:107-135 | What is stored for such nodes, by outcome: the old record, the union with all old-only nodes unchanged, or exactly the desired nodes, running. |
| Reconcile.Mark | internal/server/apply.go:68-116 | The draft is put in place, confirmed and marked with the union of the nodes, or taken back. |
| Reconcile.Converge | internal/server/apply.go:117-143 | From the deployment on, failures keep the union, and only a deployment whose cables are back and whose lab is isolated stores exactly the new nodes as running. |
| Reconcile.StillApproved | internal/server/apply.go:83-106 | Goes on only when the file in place is valid and a fresh dry run of it gives the approved plan. |
| Lifecycles.Lifecycle | internal/server/server.go:294-386 | Of the record only the requested node changes, and it keeps its control and disks: its state is the one that the action asks for, "unknown" after a failure, and a start counts only when the node was seen to run. The events are those of the requested action on this node; only a replacement touches files, and only after no container of the node is left. An action completes exactly if it may, unless something outside fails. |
| Lifecycles.ReplaceNode | internal/server/server.go:316-356 | Refused with an active fault, and with blank or unsupported boot data or such that the node cannot take; a failed removal leaves disks, boot data and topology untouched. After the removal come the boot data, its bind and a validation, then all the disks in order, then the record: control, disks and, without new boot data, both boot fields stay; new boot data sets the format and keeps the path, or sets it to the session's own. |
| Lifecycles.Act | internal/server/lifecycle.go:9-23 | A start or restart succeeds only when the node is then seen to run. |
| Lifecycles.ConfigureBootstrap | internal/server/server.go:871-910 | Boot data is published for the node; the first time only, the stored topology becomes itself with the bind of that data's path and target on the node. |
| Lifecycles.DestroySession | internal/server/server.go:215-236 | The record goes only after no container is left; a failure keeps it. |
| Timeline.RunTimeline | internal/server/server.go:513-571 | Whatever calls others make in between, every event is of an action, of a revert or of one of those calls: the actions as requested and in declaration order, none after the failing one, which had a reason; a lifecycle action ends with the store of the state it asks for. What was created is what the successful fault actions stored, under new ids; short of completion each of these is reverted, last first. As the only writer of links it leaves all links as before, except for the endpoint whose own fault failed to apply; next to idle callers, impairments and earlier faults too. |
| Timeline.Advance | internal/server/server.go:523-571 | The actions run in declaration order up to the first that fails or to the caller giving up, and what they created is known. |
| Timeline.Next | internal/server/server.go:524-560 | One action in its place, after the calls of others before it: its events, its outcome, and the fault it stored under an id not used before. |
| Timeline.Perform | internal/server/server.go:535-560 | One action leaves exactly its own events: the requested lifecycle action with its final record, the fault, or the revert; it succeeds only if it may, and then unless something outside fails. |
| Timeline.Rollback | internal/server/server.go:517-522 | The created faults are reverted last first: the j-th revert's events are those of the j-th last fault, and one that fails had a reason; with every call successful their endpoints are back. |
| Timeline.RevertShrinks | internal/server/server.go:473-511 | Reverting one fault that remembers the start returns its link or clears its impairment and disturbs no other. |
| Timeline.NewFaultIsTracked | internal/server/server.go:438-460 | A new fault holds whatever its application moved, and remembers the start. |
| Timeline.SettledAcross | internal/server/server.go:513-571 | What was settled, or used as an id, before other calls came in between is still so after them. |
| Timeline.Gap | internal/server/server.go:524-533 | The calls of others leave their own events and nothing else; those that write no link leave links and their faults alone. |
| Timeline.OwnStep | internal/server/server.go:535-556 | What an action of the timeline moves is held by a fault that it created, or by the one that failed to apply. |
| Attachments.RunKeepsInv | internal/engine/attachments.go:51-131 | Under any overlap of outages and restores, each node is connected as originally or its journal lists all its ports with their original bridges. |
| Attachments.EventKeepsInv | internal/engine/attachments.go:51-131 | One capture, outage, start, attachment or settlement keeps that. |
| Attachments.CaptureRemembers | internal/engine/attachments.go:51-103 | A capture made while no journal is pending records all of the node's ports. |
| Attachments.NoJournalMeansOriginal | internal/engine/attachments.go:105-131 | Without a pending journal, the memberships are the original ones. |
| Attachments.SettledStays | internal/engine/attachments.go:105-131 | A settled journal does not come back without a new capture. |
| Attachments.SettlingAllRestores | internal/engine/attachments.go:105-131 | Once each pending journal was settled, in any order and with any retries, all memberships are original. |
| Attachments.Engine.SaveAttachments | internal/engine/attachments.go:51-103 | A pending journal is never replaced; a new one is exactly the peers' memberships; a node without any needs none. |
| Attachments.Engine.RestoreAttachments | internal/engine/attachments.go:105-131 | The journal is removed only after everything in it is attached, and otherwise kept; with all cables and working commands it succeeds. |
| Attachments.Engine.RestoreEach | internal/server/apply.go:117-131 | With every cable present, restoring all pending journals in any order brings back every membership. |
| Attachments.Engine.LinuxPeers | internal/engine/attachments.go:26-46 | Exactly the running Linux containers of other nodes. |
| Attachments.Engine.Lifecycle | internal/engine/containerlab.go:177-199 | Exactly the steps of the action, on this node: nothing is taken down before its journal is safe, and a start or restart succeeds only with the node brought up and connected again. |
| Attachments.Engine.RemoveNode | internal/engine/containerlab.go:207-226 | Success means that no container of the node is left, whatever the command reported, and that what its peers held is in the journal. |
| Attachments.Engine.Destroy | internal/engine/containerlab.go:149-175 | Success means that no container of the lab is left. |
| GuestExec.Execute | pkg/guestagent/guestagent.go:319-378 | Starts the command as the next process of the guest's history; its calls to the agent are that start, polls of this process and, only for a command that is given up, the clean-up: such a command had exited by then, or a helper was started to kill it. Its result is that of the oldest record of the process ID, its own exactly when there was no other; without a reported clean-up failure no process ID has a record more than before. |
| GuestExec.RunCommands | pkg/guestagent/guestagent.go:319-378 | Commands in a row on a clean guest: the calls to the agent are those of these commands, one after the other, up to the first that may leave a record; each that finishes receives its own process's result, and no record is left. |
| GuestExec.ReapExec | pkg/guestagent/guestagent.go:264-288 | Polls in rounds exactly the processes that were still running, the first one first, until none is left, a call fails or time is up; the records shrink by exactly the reaped ones, also when two entries are the same process ID. |
| GuestExec.ReapRound | pkg/guestagent/guestagent.go:264-288 | One in-place pass polls each pending entry once and keeps exactly those reported as running, in order. |
| GuestExec.CleanupExec | pkg/guestagent/guestagent.go:290-317 | Polls the process first; only if that reports it as running, one helper is started that kills this very process, in the way of the guest's system, and both are polled to their exit. Success removes the target's record and leaves none of the helper. |
| GuestExec.CleanupFailsOnly | pkg/guestagent/guestagent.go:290-317 | A clean-up fails only if its last call brought no reply, its helper got no process ID, or the time for polls ran out after the helper was started. |
| GuestExec.Await | pkg/guestagent/guestagent.go:345-377 | Polls the process alone, up to the report of its exit, a call that fails or the end of the caller's context. |
| GuestExec.Guest.Status | pkg/guestagent/guestagent.go:253-262 | A report of exit consumes exactly the oldest record of the process ID. |
| GuestExec.OwnRecordIff | pkg/guestagent/guestagent.go:319-378 | A process ID leads to the command's own record exactly when no older record has it. |
| GuestExec.LostReplyMisleads | pkg/guestagent/guestagent.go:319-345 | A run in which a lost guest-exec reply leaves a record, and the next command with its process ID is given its result. |
| GuestExec.WithoutTakesOne | pkg/guestagent/guestagent.go:253-262 | Consuming a record takes away one record of its process ID and none of any other. |
| GuestExec.FoundIffCounted | pkg/guestagent/guestagent.go:253-262 | A record is found for a process ID exactly when one is there. |
| GuestChannel.Agent.Call | pkg/guestagent/guestagent.go:124-216 | A call that returns decoded the reply to its own request; a failure after its turn came gives the connection up; a kept connection has no reply left to read. An oversized or given-up request is not written, and every other call returns unless something outside fails. |
| GuestChannel.Agent.Connect | pkg/guestagent/guestagent.go:124-180 | A new connection is used only after everything stale was read away. |
| GuestChannel.Agent.Read | pkg/guestagent/guestagent.go:81-92 | Returns the next reply and skips what is not JSON. |
| GuestChannel.ResyncDrains | pkg/guestagent/guestagent.go:163-187 | Whatever stale lines come first, synchronising leaves exactly what follows the token's reply. |
| GuestChannel.SyncLeavesNothing | pkg/guestagent/guestagent.go:163-187 | Behind stale lines and noise only the token's own reply ends the synchronisation, and nothing is left. |
| GuestChannel.NoiseIsSkipped | pkg/guestagent/guestagent.go:81-92 | Behind noise the next reply is the first one. |
| GuestUpload.Upload | pkg/guestagent/guestagent.go:218-251 | Success means the guest has the whole body, flushed and closed; after a failure the file holds some beginning of it. The guest is asked for one open, the blocks, at most a flush behind them, and always one close; a body that is read without errors arrives unless the guest fails. |
| GuestUpload.Copy | pkg/guestagent/guestagent.go:228-250 | The reused buffer loses, repeats and reorders nothing, however the reader cuts the body; a short write ends it. |
| Daemon.RuntimeIsOwned | internal/server/server.go:157-193 | In every run, a session that may have a runtime has a record. |
| Daemon.KeptUntilEnded | internal/server/server.go:215-256 | A kept record disappears only by a request without PreserveKept or when the clock has reached the end of its lease. |
| Daemon.TimePasses | internal/server/server.go:623-645 | The clock that leases are compared with never goes back. |
| Daemon.ExitLeavesNothingIff | cmd/labd/main.go:94-139 | However its calls end, an exiting daemon leaves nothing exactly when nothing is stored and no creation is in flight at the moment its server stops accepting. |
| Daemon.CheckNeverSuffices | cmd/labd/main.go:126-136 | No state at the exit check is enough: from each, a creation accepted before the stop can leave a session behind. |
| Daemon.AbandonedSessionExists | cmd/labd/main.go:94-139 | Both ways to leave a session behind happen to a daemon that was just started. |
| Daemon.DrainStaysEmpty | cmd/labd/main.go:94-139 | With nothing stored and nothing in flight when the server stops accepting, nothing appears until the exit. |
| Daemon.InFlightOutlivesExit | internal/server/server.go:66-205 | A creation in flight can store its record and deploy after the server stopped accepting. |
| Daemon.Labd.Scavenge | internal/server/server.go:623-645 | Only sessions at or after their expiry are destroyed; every one that is listed is tried, and without errors all are gone. |
| Daemon.Labd.CleanupUnkept | internal/server/server.go:647-669 | Only sessions that were not kept are destroyed; every one that is listed is tried, and without errors all are gone. |
| Daemon.Labd.DestroySession | internal/server/server.go:215-236 | Needs the token; with PreserveKept a kept session stays. |
| Daemon.Labd.KeepSession | internal/server/server.go:238-256 | Marks the record kept and renews its lease. |
| Daemon.Labd.Housekeep | cmd/labd/main.go:111-125 | After an event that takes the owner away, every session then stored and not kept has a Destroy or the listing failed; after every event the same holds of leases that are over. |
| Daemon.Labd.Loop | cmd/labd/main.go:48-140 | In every turn, each session that is listed with its lease over has a Destroy, and in the turn in which the owner goes each that was not kept, unless the store could not be listed. The loop ends only when told to, or when it is detached and finds no record, and then with nothing left unless something was stored or in creation at the moment its server stopped accepting, which comes after the check; calls go on between the two. |
| Naming.SanitizeTwiceIff | pkg/spec/topology.go:401-407 | Sanitising a name again changes nothing exactly when the cut left no separator at its end. |
| Naming.SanitizeTwiceIsFixed | pkg/spec/topology.go:401-407 | Sanitising twice is a fixed point. |
| Naming.SanitizeStaysUsable | pkg/spec/topology.go:145-149 | A usable name is never sanitised away by a second pass. |
| Naming.UncleanCutExists | pkg/spec/topology.go:401-407 | A name that session creation accepts and a second pass changes. |
| Naming.RunBecomesHyphen | pkg/spec/topology.go:401-407 | Safe characters stay, and a run of others, however long, becomes one hyphen. |
| Naming.TrimTakesEdges | pkg/spec/topology.go:401-407 | Trimming takes separators off both ends and nothing else. |
| Naming.SanitizeCuts | pkg/spec/topology.go:401-407 | A lab name is the trimmed name cut to 48 characters; a name that is one already stays. |
| Yaml.SetScalar | pkg/spec/topology.go:376-386 | Replaces the value of the first entry with the key, or appends one. |
| Yaml.MappingValue | pkg/spec/topology.go:338-348 | The value of the first entry with the key, if the node is a mapping. |
| Yaml.SetTrue | pkg/spec/topology.go:388-399 | The key reads as the boolean true and every other key as before. |
| Yaml.SetTrueTwice | pkg/spec/topology.go:326-329 | Setting the flag again changes nothing. |
| Yaml.PutKeepsOthers | pkg/spec/topology.go:376-386 | Setting a key keeps every entry of the other keys, in its order. |
| Rewriting.Document.PrepareWithOptions | pkg/spec/topology.go:136-226 | The document in place becomes the prepared one, or the refusal says why. |
| Rewriting.ValidateAndLabel | pkg/spec/topology.go:259-324 | Refuses for the first node or link that breaks the isolation policy, and labels every node otherwise. |
| Rewriting.AbsolutizeSection | pkg/spec/topology.go:228-257 | Rewrites the binds of a section and of its named definitions; a bind list of another shape refuses the topology. |
| Rewriting.AddBinds | pkg/spec/topology.go:194-203 | The result does not depend on the order in which the map of binds is walked; an unknown node is refused. |
| Rewriting.AddNodeBind | pkg/spec/topology.go:86-109 | Appends the bind to the node's list unless an equal one is there, and changes nothing else. |
| PreparationLaws.PreparingAgainIff | pkg/spec/topology.go:136-226 | Preparing a prepared topology under its lab name yields it unchanged exactly when the name was cut clean. |
| PreparationLaws.PreparationIsLossless | pkg/spec/topology.go:136-226 | At every level of the document, what preparation does not set keeps its value and its place; labels and network modes of the user stay, an omitted mode becomes "none", and binds only grow. |
| PreparationLaws.HostPathsAreJoined | pkg/spec/topology.go:228-257 | In a prepared document item i of each bind list of the source, in every node and in every definition of each section, is the item of the source with just its relative host path joined to the directory. |
| PreparationLaws.HostIsJoined | pkg/spec/topology.go:248-254 | A host path that is not empty and does not begin with a slash or a dollar sign is joined to the directory; any other bind stays. |
| PreparationLaws.PreparesIff | pkg/spec/topology.go:136-324 | A document is prepared exactly when it has nodes, its name is usable, its nodes and links keep the isolation policy unless external access is allowed, its bind lists are lists if paths are to be joined, and the binds name its nodes. |
| PreparationLaws.RolesAreRead | pkg/spec/topology.go:205-220 | The prepared topology names every node, those with a container of their own, and of these the ones that resolve to no network. |
| PreparationLaws.PreparedIsOwned | pkg/spec/topology.go:145-167 | The document bears the lab name and keeps the management network off, and every node carries the session's labels. |
| PreparationLaws.PreparedLabIsIsolated | pkg/spec/topology.go:259-324 | Without external access, every node of a prepared lab resolves to no network of its own, publishes nothing, and no link leaves the lab. |
| PreparationLaws.TopologyOnce | pkg/spec/topology.go:228-257 | Making host paths absolute twice equals once, in every section. |
| PreparationLaws.AbsoluteOnce | pkg/spec/topology.go:248-254 | Making host paths absolute again changes nothing, and everything from the first colon on is kept. |
| PreparationLaws.SettledIsFixed | pkg/spec/topology.go:259-324 | Nodes that carry what labelling sets pass it unchanged. |
| PreparationLaws.NodesAreKept | pkg/spec/topology.go:187-203 | Each node of the topology survives in its place, with exactly the binds its name asks for added last. |
| Drafts.PlanBinds | internal/server/server.go:99-109 | Accepts exactly the well-formed disk and boot requests, and lists each node's disks before its boot data. |
| Drafts.DiskPlan | internal/server/server.go:763-785 | Refuses disks without guest control, bad or repeated names and sizes; otherwise one bind per disk, in order. |
| Drafts.BootstrapPlan | internal/server/server.go:821-844 | Refuses boot data without guest control or of an unknown format; otherwise one read-only bind per node that has some. |
| Drafts.PrepareDraft | internal/server/plan.go:54-92 | The draft is prepared with the binds of the retained nodes as the record has them. |
| DraftLaws.RecordAgrees | internal/server/plan.go:74-90 | The binds rebuilt from the record are those planned at creation, list by list and in order. |
| DraftLaws.BindsAreSpelled | internal/server/server.go:763-869 | Each requested disk is bound from its file to its place under /labcontainers-disks, in order, and boot data last and read-only to the place of its format. |
| DraftLaws.CreatedAsAsked | internal/server/server.go:157-193 | A created session has, on record and on disk, the control, the fresh disks and the boot data that the request asked for. |
| DraftLaws.DraftListsRecord | internal/server/plan.go:64-91 | In a drafted topology each node keeps its own binds and then lists exactly those of its record. |
| DraftLaws.ConvergedKeepsBinds | internal/server/apply.go:45-52 | After a reconciliation the binds rebuilt for retained nodes are as before, and new nodes have none. |
| DraftLaws.RedraftAfterApply | internal/server/apply.go:41-66 | After a draft was applied and converged, drafting its source again gives the same draft. |
| DraftLaws.RedraftIff | internal/server/plan.go:64-91 | Drafting the original source again yields the stored topology exactly when the name was cut clean. |
| DraftLaws.RedraftAfterReplaceIff | internal/server/server.go:895-908 | After a replacement added first boot data, the same, exactly when in addition the bind was not listed before. |
| DraftLaws.ListedBindExists | internal/server/server.go:895-908 | A session whose source lists that bind already, and whose draft then lists it twice. |
| DraftLaws.AbandonedReplaceIff | internal/server/server.go:342-353 | A replacement that failed after writing the bind leaves a topology that a new draft does not reproduce, unless the bind was listed before; repeating it changes nothing more. |
| DraftLaws.AbandonedReplaceExists | internal/server/server.go:342-353 | A session with one node whose abandoned replacement leaves such a topology. |
| DraftLaws.StoredAgainIff | internal/server/plan.go:54-63 | A draft without a source, also after a bind was added, yields the stored topology exactly when the name was cut clean. |
| DraftLaws.RenamedSessionExists | internal/server/plan.go:64-91 | A session name that creation accepts and whose topology the next draft renames. |
| DraftLaws.BoundTwice | pkg/spec/topology.go:101-107 | Adding a bind to a node's mapping twice adds it once. |
| DraftLaws.BoundAppends | pkg/spec/topology.go:86-109 | Adding a bind appends it to the node's list unless an item there reads the same; the rest of the node, the other nodes and the rest of the document stay. |
| DraftLaws.BindsOnlyAdd | pkg/spec/topology.go:194-225 | Binds are accepted exactly for existing nodes and change neither the names nor the roles of nodes. |
| Site.Build.Run | pkg/kubernetes/k0s/site.go:58-93 | A build keeps the required order of effects; a member is installed only when each of its checks was answered no for both unit files, and in a build that succeeds exactly then, whatever files it has; with true answers no member that has one is reinstalled, and a built site has one everywhere and every controller serving after its start. |
| Site.NothingBeforeVerified | pkg/kubernetes/k0s/site.go:62-74 | Nothing is asked, installed or started before every member carries the binary and reported exactly its version. |
| Site.TokensAreFresh | pkg/kubernetes/k0s/site.go:133-147 | A join token is minted only after the first controller served since the latest start anywhere. |
| Site.JoinsAreSerial | pkg/kubernetes/k0s/site.go:82-91 | Before a member is touched, every earlier one was started and every earlier controller served after that. |
| Site.InstalledWasDenied | pkg/kubernetes/k0s/site.go:133-187 | An installation follows a check answered no for both files, and a joiner's token also followed one; a file that was there all along was denied untruthfully. |
| Site.DenialReinstalls | pkg/kubernetes/k0s/site.go:180-187 | In any site, any member is installed, whatever it has, when only its own questions stay unanswered and all other answers are true. |
| Site.OneDenialIsNotEnough | pkg/kubernetes/k0s/site.go:133-161 | A joiner with a unit file that is denied at its first check only is started and not installed. |
| Site.ServingIff | pkg/kubernetes/k0s/site.go:196-204 | Serving means a successful probe with no later start. |
| Site.Build.Installed | pkg/kubernetes/k0s/site.go:180-187 | Asks for the worker's file only without the controller's, and finds exactly what is answered. |
| Site.Build.Join | pkg/kubernetes/k0s/site.go:133-155 | An installed member is only started; another is installed with a token minted for its role, if the second check denies its files as well. |
| Site.Build.Rebuild | pkg/kubernetes/k0s/site.go:55-58 | With true answers, building a built site again installs nothing, and yet starts every member and sees every controller serve. |
| Wait.Until | pkg/wait/wait.go:46-79 | Makes the attempts up to the first after which the wait does not go on, and answers by it: success only for a success, the end at the first hopeless failure; at most budget / interval + 2 attempts, and the end within the budget, one interval and one attempt when attempts honour their context. |
| Wait.WaitExec | internal/server/server.go:573-621 | Succeeds exactly when the last run was answered in time with the expected result, no earlier one being so; at most timeout / retry + 1 runs, never past the timeout. |
| Wait.Expected | internal/server/server.go:596-609 | A result is the expected one exactly if its exit code is equal and its two outputs contain the expected texts. |
| Wait.AttemptsFit | pkg/wait/wait.go:46-79 | Attempts an interval apart that all went on are no more than the budget allows, and the last begins at most an interval after the deadline. |
| ShellQuote.PutReachesThePath | internal/engine/containerlab.go:279-281 | For every path, the shell reads the command as mkdir on the output of dirname of that path, and then cat to exactly that path. |
| ShellQuote.QuoteIsOneWord | internal/engine/containerlab.go:377 | Before a delimiter or the end, a quoted string is one word equal to the string. |
| ShellQuote.EscapeIsRead | internal/engine/containerlab.go:377 | Inside quotes, the escaped text and the closing quote give back the text. |
| ShellQuote.Dirname | internal/engine/containerlab.go:279-280 | Inside the command substitution, dirname gets the path as its one operand. |
| OpenObject.OpenRoundTrip | pkg/cloudinit/networkconfig/codec.go:12-79 | Encoding succeeds exactly when no extra key is a field's key, and decoding returns the typed part and the extras, numbers as literals. |
| OpenObject.ReencodeRoundTrip | pkg/cloudinit/networkconfig/codec.go:12-79 | Any object read and written again is the same, whatever its keys. |
| OpenObject.Unmarshal | pkg/cloudinit/networkconfig/codec.go:12-47 | Splits an object into the fields' keys and all others, losing none. |
| OpenObject.Marshal | pkg/cloudinit/networkconfig/codec.go:51-79 | Adds the extras to the typed object, or refuses a key that a field has; no extras read as none. |
| OpenObject.ValueRoundTrip | pkg/cloudinit/networkconfig/codec.go:36-45 | A nested value survives, with its numbers as literals. |

## Left out

- Reconcile.ApplyTopology: an error while storing the union of the nodes may leave it in the record although nothing was
  deployed, because a failed write of the record may have landed.
- Reconcile.Mark: when taking the draft back fails, the draft stays in the file.
- Daemon.Labd.Loop: a second signal ends the daemon at once, without the wait for calls in progress that the server
  makes before it lets go.
- What a check looks at: whether a topology file is valid, a lab isolated, a node running or a cable back is an answer
  that the log records, and operations are proved to ask for it where the code does.
- Link changes made by power-off, crash, restart, guests, replaced switches or anyone else: the fault ledger is about
  links that change through faults and deployments, the journals about memberships that change through outages.
- What a link was before a netem impairment: the repository documents that it is not restored; only coverage is proved.
- The wall-clock times of timeline actions; how long waits take is in `Wait.dfy`. Results of commands run by a timeline.
- The text of a session's topology file is opaque in `Host.dfy`: adding a bind to it is a function of the host, and what
  that does to the document is `Rewriting.AddNodeBind`.
- Filesystem details: record, topology and journal writes are atomic, and a half-made session directory, which makes
  listing the store fail, is only the failure of that listing. Evidence files, permissions and fsync.
- Random session and fault identifiers and synchronisation tokens are assumed fresh; concurrent commands on one guest
  agent, and other processes that share the state directory.
- Two sessions are modelled together only in `Daemon.dfy`; `Host.dfy` follows one session.
- Mapping nodes of YAML documents are values here: `Rewriting.Document` updates its tree in place, but shared (aliased)
  subtrees are kept by name and not followed, and tags of mappings and sequences are not kept.
- Containerlab's inheritance (kind, inherited network mode, ports, links) is a parameter of the preparation; a topology
  that repeats a node name or a key in one mapping, which Containerlab rejects later, may resolve differently there.
- The sorting of node names in a prepared topology: they are sets. Joining of host paths is a parameter that yields
  absolute paths.
- Whitespace outside ASCII in boot data that is otherwise blank.
- The digest check of installed k0s binaries, the content of k0s configurations and the waits inside the site build.
- Attempts that ignore their context in `Wait.dfy` void its bound on the end only; timers fire exactly on time.
- JSON as text: encoding and decoding of objects to bytes, and how generated types encode their own fields.
- Environment variables, expansions and operators of the shell that the command of Put does not use.
- gRPC plumbing, client libraries, container and virtual machine launchers, Windows features, the kube, rke2, vyos and
  manifest helpers: command assembly or finite validation.
