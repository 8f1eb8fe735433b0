# The policy index, verified

The policy controller watches nodes, pods, servers and server authorizations and tells every inbound
proxy, port by port, whom to admit. It never rebuilds anything: each event handler patches only what
it believes has changed in five cross-linked maps and two levels of watch channels. This project
models that machinery in Dafny and proves when the patched state is the configuration that one would
compute from scratch, and exactly when it is not.

## How it is laid out

* `Base`, `Order`, `Net`, `Labels`, `Policy`, `Identity`, `Resources`, `Ports`: the vocabulary, the
  objects of the cluster, and the conversions that read one object at a time.
* `Proto`, `Client`, `Translation`: the wire form of a policy, the client's decoding and access
  checks, and the proof that the access decision survives the trip.
* `Watch`: watch channels as a store. An inner channel carries one server's policy; an outer channel,
  one for each pod port, carries the inner channel that the port follows.
* `IndexState`: the state of the index as a value, and what each operation does to it. Wherever a
  hash map is walked the definition allows every order.
* `Servers`, `Pods`, `Nodes`, `Lookup`, `Indexer`: the program, as classes with the source's fields
  and loops, each method proved against `IndexState`. `Events` says which operations an event
  amounts to; `Indexer.Index.Handle` does those.
* `Invariant`: what holds in every reachable state, whatever the events.
* `Cluster`: the records of the cluster without any index, the policy of a port computed from them
  from scratch (`FromScratch`), and what an operator must guarantee (`Admissible`).
* `Refinement`, `Binding`, `Draining`, `Effects`, `Pending`, `Agreement`: the patched index agrees
  with the records; bindings are exact; what the pending queues keep and what they lose.
* `Resets`, `ServerResets`, `RestartBindings`, `History`, `Convergence`: where restarts land and exactly
  when they leave exact bindings, what the records are in terms of the history of events, and that the
  order of arrival does not matter.
* `Protocols`, `Variant`, `Twins`: which protocol is published, by the comparison as written and by the
  one its comment intends, and that the two index runs differ in nothing else.
* `LiveObjects`, `Intake`, `PodIntake`: which objects are live, by the sequence of events alone, and that the
  index and the records have exactly those.
* `Stream`: the two-level watch protocol as a transition system of a writer and a reader that race.
* `Joint`, `Delivery`: the index and a stream as one system, in which every change that an operation
  makes to the store is a send on a channel, interleaved with the stream's own steps.
* `Discovery`, `Decision`, `CatchingUp`: everything together, from watch events to the proxy's decision.
* `Examples`: the program run on concrete events where an assumption fails.

## What an operator must guarantee

The theorems about single states and the invariant are unconditional. Those that compare the index
with the configuration from scratch assume, operation by operation (`Cluster.Admissible`):

* a live pod keeps its node once it has one, and a discoverable one its ports, their names and its
  default policy; a node is deleted only when no pod waits for it (`Stable`);
* no port is claimed by two servers, also in between the operations of a restart (`ConflictFree`);
* relabelling a pod does not pass a port from one server straight to another (`NoHandover`).

The first is exactly what it takes for the index to agree with the records in every state
(`Agreement.AgreesThroughoutIff`). The last two are exactly what exact bindings need: on stable objects they hold throughout a run if and
only if the bindings are exact throughout it (`Agreement.ExactThroughoutIff`); for the state that a
restart of the servers leads to, `RestartBindings.RestartBindsExactlyIff` says exactly when. What
happens without an assumption: `Binding.HandoverKeepsOldServer`, `RestartBindings.GoneServerUnbinds`,
`Effects.OnlyLabelsAreTaken`, `Pending.DeletedNodeLosesItsQueue`, and on concrete events `Examples`.

## Where code and documentation disagree

The model follows the code.

* `controller/k8s/index/src/server.rs`, lines 106-118: the comment wants the configuration updated
  when something changed, but a new protocol is taken only if it equals the old one. A server
  publishes the protocol of the object it was created with (`Protocols.PublishedProtocolIsFrozen`).
  With the comparison the comment describes it would publish that of its latest object, and nothing
  else would change (`Variant.PublishedBy`, `Twins.RunTwin`).
* `controller/k8s/api/src/labels.rs`, line 143: `NotIn` is evaluated as `In` when the label is there.
  `Labels.MatchesAsDefined` says for which selectors and labels this makes a difference. Nothing else
  depends on it: every other theorem uses `Matches` as it is.
* `controller/k8s/index/src/pod.rs`, line 301: the comment says that a de-selected pod is not reset.
  It is: ports that no server claims return to the default policy (`Pods.PodIndex.LinkPod`).
* `controller/k8s/index/src/pod.rs`, lines 335-342: conflicts are treated as in a release build, in
  which the assertion is absent and the second server is ignored.

## Model

| member | source | states |
|---|---|---|
| `Decision.ProxyDecides` | DESIGN.md:180-204 | After any sequence of Applied, Deleted and Restarted events whose operations are admissible, by the events and the fields of the objects alone: a port is served if and only if a live pod that has met its node exposes it over TCP, and the client that decodes what is served admits a connection if and only if it comes from the pod's kubelet, or a live authorization selects the live server that claims the port and says so, or no server claims it and the mode that the pod's annotation (or else the cluster) asks for says so; the protocol is the claimant's or the default's |
| `Decision.StreamDecides` | controller/k8s/index/src/lookup.rs:137-172 | The same for a stream at rest, however the index's sends raced with it |
| `Discovery.EventsServeFromScratch` | controller/k8s/index/src/lib.rs:144-176 | After such events the records hold exactly the objects that are live by the events alone, `Rx::get` on every (namespace, pod, port) is the policy computed from scratch from them plus `_health_check`, and nothing is served for a port that is not discoverable; whatever the hash-map orders |
| `Discovery.EventsBindExactly` | controller/k8s/index/src/pod.rs:302-364 | After such events the ports of an indexed pod are those that the containers of its live object expose, and one is bound to `n` if and only if `n` is live, its latest object's selector matches the pod's labels, and its port is that number or the name that the first entry exposing the port gives it |
| `Discovery.Answer` | controller/k8s/index/src/lookup.rs:99-104 | The program itself: a new index that handles a list of events answers a lookup with what its state serves, and returns the run it did; if that run was admissible, the answer is the policy computed from scratch |
| `Discovery.EndToEnd` | controller/k8s/index/src/lookup.rs:137-172 | Index and stream running together from their start, in every interleaving of sends and reads: after admissible operations, once the stream of a served port is at rest and nothing is left to be sent for the port, the client that decodes its last value admits a connection if and only if it comes from the pod's kubelet or the governing policy, computed from scratch, admits it |
| `Discovery.ReachableStatesAreCoherent` | controller/k8s/index/src/pod.rs:273-349 | In every reachable state, conflicts included: a bound port names a server of its own namespace and its watch holds that server's receiver, an unbound one holds the pod's default receiver; each server's authorizations are exactly those that select it and its channel publishes them with `meta.protocol` |
| `Discovery.LookupMatchesIndex` | controller/k8s/index/src/lookup.rs:45-85 | In every reachable state the lookup map and the pod indexes hold the same pods with the same ports and receivers, every entry has a kubelet address, and no namespace of lookups is empty |
| `Discovery.KubeletIsAdmittedExactly` | controller/k8s/index/src/lookup.rs:121-135 | In every reachable state the served policy admits each kubelet address over any connection, and any other address exactly as the policy does without `_health_check`; the empty-means-all rule never widens it |
| `Agreement.WholeRun` | controller/k8s/index/src/pod.rs:156-226 | The same as `EventsServeFromScratch` for runs of single operations |
| `Agreement.ExactBindingIff` | controller/k8s/index/src/pod.rs:325-349 | One operation on stable objects leaves bindings exact if and only if no port is claimed twice afterwards and no port is handed straight from one server to another |
| `Agreement.ExactThroughoutIff` | DESIGN.md:180-185 | Over whole runs on stable objects: bindings are exact in every state if and only if at every step no port is claimed twice and none is handed straight from one server to another |
| `Agreement.RunAgrees` | controller/k8s/index/src/lib.rs:144-176 | Invariant, agreement with the records and exact bindings hold after every admissible run |
| `Agreement.StableRunAgrees` | controller/k8s/index/src/pod.rs:145-227 | With stable objects the index agrees with the records after every run, even while servers conflict |
| `Agreement.AgreesIff` | controller/k8s/index/src/pod.rs:145-227 | One operation keeps the index in agreement with the records if and only if it is stable: no discoverable pod changes its ports, their names or its default policy, no waiting pod its node, and no deleted node has a queue |
| `Agreement.AgreesThroughoutIff` | controller/k8s/index/src/pod.rs:145-227 | Over whole runs: the index agrees with the records in every state if and only if the objects are stable throughout |
| `Intake.ServersAreLive` | controller/k8s/index/src/server.rs:196-272 | After any events, conflicts included, the indexed servers are exactly those with an object that was neither deleted nor left out of a later restart, each with the labels, port and selector of its latest object and the protocol of its first |
| `Intake.AuthzsAreLive` | controller/k8s/index/src/authz.rs:99-160 | After any events the indexed authorizations are exactly the latest accepted objects that were neither deleted nor left out of a later restart |
| `Intake.NodesAreLive` | controller/k8s/index/src/node.rs:97-181 | After any events the known nodes are exactly those with an object that loads and was neither deleted nor left out of a later restart, with the addresses of the first such object |
| `Intake.RecordsAreLive` | controller/k8s/index/src/lib.rs:144-176 | The records have the same servers, authorizations and nodes |
| `PodIntake.PodsAreLive` | controller/k8s/index/src/pod.rs:46-140 | On stable objects the pods on record are exactly those neither deleted nor left out of a later restart, with their latest object and the addresses of the first moment at which pod and node were there together |
| `PodIntake.RestartIsLiveIff` | controller/k8s/index/src/pod.rs:107-140 | Without stability, a restart leaves the right record of a pod if and only if the pod is listed, or indexed, or not on record as discoverable |
| `Examples.ForgottenRun` | controller/k8s/index/src/pod.rs:107-140 | Four events after which it is not: the pod was lost with its node's queue |
| `Pending.PendingIsExclusive` | controller/k8s/index/src/node.rs:31-54 | In every state of a run in which queued pods keep their node, whatever else happens to pods and nodes: a pod waits for at most one node, the one it is assigned to, which is not known, and no waiting pod is indexed |
| `Pending.OpExclusive` | controller/k8s/index/src/node.rs:31-54 | From such a state one operation leads to another if and only if it does not apply a queued pod with another node; ports, annotations and deleted nodes make no difference |
| `Pending.DeletedNodeLosesItsQueue` | controller/k8s/index/src/node.rs:138-145 | Every deletion of a node in such a run, the first or not, loses exactly the pods that wait for it: they are neither indexed nor queued afterwards and every other pod is as it was; so none is lost if and only if the queue is empty |
| `Agreement.ServedIsFromScratch` | controller/k8s/index/src/lookup.rs:133-135 | In any state that agrees with the records and is exactly bound, `get` returns the policy computed from scratch |
| `Agreement.PortPolicy` | controller/k8s/index/src/pod.rs:325-349 | The outer channel of a port leads to the policy of the server that claims it, or to the pod's default |
| `Convergence.OrderDoesNotMatter` | controller/k8s/index/src/node.rs:97-135 | Distinct nodes, pods, servers and authorizations, free of conflicts as a whole, may be applied in any two orders: every port is served the same policy, the one from scratch |
| `Convergence.SameObjectsSameRecords` | controller/k8s/index/src/node.rs:107-133 | The records depend only on which objects were applied, including pods that arrived before their node |
| `Convergence.EachOnceIsAdmissible` | DESIGN.md:180-185 | If the objects of a run do not conflict as a whole, no intermediate state does either |
| `Invariant.OpInv` | controller/k8s/index/src/lib.rs:146-176 | Every operation keeps the unconditional invariant: channel coherence, materialised authorization views, index/lookup bijection, non-empty kubelet lists, well-filed queues |
| `Invariant.RunInv` | controller/k8s/index/src/lib.rs:144-176 | So does every run of operations, in whatever order and whatever conflicts |
| `Invariant.InitInv` | controller/k8s/index/src/lib.rs:96-121 | The empty index obeys it |
| `Invariant.PatchedIsView` | controller/k8s/index/src/server.rs:36-56 | Adding an authorization to the servers it selects and removing it from the others equals recomputing each server's view |
| `Invariant.ApplyAuthzInv` | controller/k8s/index/src/authz.rs:99-106 | `apply_authz` keeps every server's view exact and published |
| `Invariant.DeleteAuthzInv` | controller/k8s/index/src/authz.rs:115-125 | `delete_authz` does too |
| `Invariant.ApplyServerInv` | controller/k8s/index/src/server.rs:196-210 | `apply_server` keeps the invariant for any choice of bindings among conflicting servers |
| `Invariant.RmServerInv` | controller/k8s/index/src/server.rs:224-239 | `rm_server` leaves no port naming the removed server or following its channel |
| `Invariant.ApplyPodInv` | controller/k8s/index/src/pod.rs:46-68 | `apply_pod` keeps the invariant, whether the pod is new, queued, relabelled or ignored |
| `Invariant.RmPodInv` | controller/k8s/index/src/pod.rs:83-104 | `rm_pod` takes the pod out of index and lookups together |
| `Invariant.ApplyNodeInv` | controller/k8s/index/src/node.rs:97-135 | `apply_node` with its queue keeps the invariant |
| `Draining.OpAgrees` | controller/k8s/index/src/lib.rs:146-176 | Every operation on stable objects commutes with the abstraction: index state agrees with the updated records |
| `Draining.ApplyNodeAgrees` | controller/k8s/index/src/node.rs:124-132 | Draining a queue in any order is one step of the records: every waiting pod of the node becomes discoverable with that node's addresses, and exactness is kept |
| `Binding.PodLinkedExact` | controller/k8s/index/src/pod.rs:302-323 | Linking a pod in any order of servers leaves it exactly bound if and only if each of its ports is claimed at most once and was not bound to a server that lost it to another |
| `Binding.HandoverKeepsOldServer` | controller/k8s/index/src/pod.rs:335-343 | A relabelled port that passes from one server's claim straight to another's stays with the old server |
| `Binding.ExactIsConflictFree` | DESIGN.md:180-185 | Exact bindings are possible only without conflicts |
| `Binding.ApplyServerExact` | controller/k8s/index/src/server.rs:205-209 | Applying a server to an exactly bound namespace leaves it exactly bound if no port is then claimed twice |
| `Binding.RmServerExact` | controller/k8s/index/src/server.rs:230-235 | Removing a server needs no relinking: the bindings stay exact without any condition |
| `Binding.RelabelExact` | controller/k8s/index/src/pod.rs:217-221 | Relabelling keeps exactness without a direct handover |
| `Binding.RelabelNeedsNoHandover` | controller/k8s/index/src/pod.rs:325-343 | and only then |
| `Effects.NodeDrainsItsQueue` | controller/k8s/index/src/node.rs:97-135 | In every reachable state, observing a node moves exactly its queue into the index: none lost, none re-queued, no other queue touched; no assumption on specs |
| `Effects.PodAppliedIndexed` | controller/k8s/index/src/pod.rs:157-206 | A pod is indexed after `apply` if and only if it was, or its node is known |
| `Effects.PodAppliedQueues` | controller/k8s/index/src/node.rs:31-54 | and queued if and only if it was, or it is not indexed and its node is unknown |
| `Effects.OnlyLabelsAreTaken` | controller/k8s/index/src/pod.rs:208-225 | For an indexed pod the spec and the annotation of a new object make no difference |
| `Examples.Handover` | controller/k8s/index/src/pod.rs:335-343 | The program on five events: a pod relabelled from one server's claim to another's is served the policy of the first although only the second claims its port |
| `Examples.Rename` | controller/k8s/index/src/server.rs:253-269 | The program on four events: after a restart that lists the server under another name its port is served the default policy although the new name claims it |
| `Examples.Change` | controller/k8s/index/src/server.rs:114-118 | The program on four events: a server applied again with HTTP/2 still publishes HTTP/1 |
| `Examples.Relist` | controller/k8s/index/src/authz.rs:139-157 | The program on five events: after a restart whose only object of a name does not parse, the old version of that authorization is still served |
| `Examples.HandedOverRun` | controller/k8s/index/src/pod.rs:335-343 | Every run of those events starts the handover from exact bindings and ends it without |
| `Examples.RenameIsInstance` | controller/k8s/index/src/server.rs:253-269 | The state before the renaming restart has all that the general theorem asks for |
| `History.AuthzsOnRecord` | controller/k8s/index/src/authz.rs:29-59 | The authorizations on record, from which policies are computed, are the latest ones that parsed and were not deleted since |
| `History.PodsOnRecord` | controller/k8s/index/src/pod.rs:83-140 | A pod on record has its latest object, and every pod applied and not deleted since is on record unless a restart dropped it while it waited |
| `History.DiscoverableOnRecord` | controller/k8s/index/src/pod.rs:156-206 | After any history: a pod is on record if and only if its object is fresh (applied, and neither deleted nor restarted since) or a fresh object and its node's addresses were once there together since it was last deleted; it is discoverable in the second case only, with the addresses of the first such moment |
| `History.NodesOnRecord` | controller/k8s/index/src/node.rs:97-145 | The addresses on record for a node are those of the first object that loaded since the node was last removed |
| `Resets.PodResetIsExact` | controller/k8s/index/src/pod.rs:107-140 | For any list that names no pod twice: indexed afterwards are the listed pods that were indexed or whose node is known, pending are the other listed ones with a node name, discoverable are the indexed ones, and nothing else remains; no assumption on specs |
| `Resets.AuthzResetIsRebuild` | controller/k8s/index/src/authz.rs:128-160 | `reset_authzs` lands where deleting everything and applying the list would, if and only if no indexed authorization is listed only with objects that fail to parse; and then both serve the same |
| `Resets.AuthzResetEffect` | controller/k8s/index/src/authz.rs:139-157 | What it leaves in every case: the last object of each listed name that parses, or the old version of a name listed only unparsably |
| `ServerResets.ServerResetIsExact` | controller/k8s/index/src/server.rs:242-272 | After `reset_servers` exactly the listed servers are indexed, each with its last listed object, except the protocol: the one it had, or that of its first listed object |
| `RestartBindings.GoneServerUnbinds` | controller/k8s/index/src/server.rs:242-272 | From any exactly bound state, whatever a restart lists: every port of a server it does not list ends on the default policy, even if a listed server claims it, and then the bindings are not exact |
| `RestartBindings.RenamedServerIsUnbound` | controller/k8s/index/src/server.rs:253-269 | In particular the ports of a server that is listed under a new name: applying comes before removing |
| `RestartBindings.RestartBindsExactlyIff` | controller/k8s/index/src/server.rs:242-272 | From exact bindings, a restart with a list that names no server twice leaves exact bindings if and only if no port is claimed twice after any of its applications |
| `RestartBindings.RestartIsAdmissibleIff` | controller/k8s/index/src/server.rs:242-272 | which is when its operations are admissible |
| `Events.EventsKeepInv` | controller/k8s/index/src/lib.rs:144-176 | Every sequence of events keeps the invariant |
| `Events.EventsRunIsSteps` | controller/k8s/index/src/lib.rs:144-176 | A run of events, restarts included, is a run of single operations |
| `Protocols.PublishedProtocolIsFrozen` | controller/k8s/index/src/server.rs:105-141 | After any run every server publishes the protocol of the object it was created with, which is the latest object's if and only if both ask for the same |
| `Protocols.RecordsKeepCreation` | controller/k8s/index/src/server.rs:114-158 | Labels, port and pod selector follow the latest object; the protocol does not |
| `Variant.PublishedBy` | controller/k8s/index/src/server.rs:106-141 | In every state of every run of the index, by either comparison of protocols: every live server publishes the protocol of its latest object if the comparison is the one that the comment intends, and that of the object it was created with if it is the one written |
| `Variant.AsWrittenIsTheIndex` | controller/k8s/index/src/server.rs:114-118 | By the comparison as written the variant is the index, operation by operation |
| `Twins.RunTwin` | controller/k8s/index/src/server.rs:105-141 | For every run by one comparison there is a run of the same operations by the other whose states agree with it in everything but protocols: pods, bindings, queues, lookups, channels, authorizations |
| `Twins.TwinsServe` | controller/k8s/index/src/lookup.rs:121-135 | and which serve every port the same authorizations |
| `Stream.AgreementAtRest` | controller/k8s/index/src/lookup.rs:145-170 | Under every interleaving of writer and reader steps: when no version is unseen in `select!`, the stream follows the channel the outer one holds and its last raw value is that channel's current value |
| `Stream.FrugalAndGenuine` | controller/k8s/index/src/lookup.rs:147-166 | Consecutive raw values differ, each was published on a channel the outer one pointed to, and the stream ends only after the outer sender is gone and its last value was read |
| `Stream.ReaderProgress` | controller/k8s/index/src/lookup.rs:146-169 | Without writer activity every reader step but spinning brings the stream closer to rest, with at most two wake-ups left |
| `Stream.ComesToRest` | controller/k8s/index/src/lookup.rs:145-170 | So the reader comes to rest or to its end in boundedly many steps, in whichever order it wakes up |
| `Stream.NeverStuck` | controller/k8s/index/src/lookup.rs:145-170 | A stream that is neither at rest nor ended can take a step that is not spinning |
| `Stream.RunKeeps` | controller/k8s/index/src/lookup.rs:137-172 | The invariant behind these, over all runs |
| `Delivery.TogetherKeeps` | controller/k8s/index/src/server.rs:125-146 | Index and stream together, over every interleaving: each channel holds what the index's store holds except where the operation under way has a send left, senders live as long as their ports and servers, and the stream is in order |
| `Delivery.IdleMirrors` | controller/k8s/index/src/server.rs:125-146 | Hence whenever no send is left, all channels mirror the store, and closed are exactly those of ports and servers that are gone |
| `Delivery.EffectIsWriterStep` | controller/k8s/index/src/pod.rs:325-349 | What an operation does to a channel is, for a stream, one step of the writer, or nothing if the channel is another port's |
| `Joint.OpCarries` | controller/k8s/index/src/server.rs:196-210 | What any operation may do to the channels: inner ones never vanish and change only for indexed servers, a server's channel is never taken up again, outer channels and lookup entries that appear are new |
| `Delivery.Finishes` | controller/k8s/index/src/server.rs:125-146 | The sends that an operation leaves to be done can always be done, values before targets |
| `Delivery.EveryRunIsCarriedOut` | controller/k8s/index/src/lib.rs:144-176 | Every run of the index is one of the joint system, with all sends done |
| `Discovery.StreamAtRestServes` | controller/k8s/index/src/lookup.rs:106-111 | In every run of index and stream together: a stream at rest, with nothing left to be sent for its port, has last told the proxy what `get` would return now, kubelet included |
| `CatchingUp.StreamCatchesUp` | controller/k8s/index/src/lookup.rs:137-172 | From every state that index and stream reach together, the sends that are due and steps of the stream lead to one in which the stream of a served port has told the proxy what the index serves |
| `CatchingUp.StreamEnds` | controller/k8s/index/src/lookup.rs:147-166 | and the stream of a port that is gone to its end |
| `CatchingUp.ReaderRests` | controller/k8s/index/src/lookup.rs:145-170 | The stream alone comes to rest, or to its end if the port's sender is gone, without changing anything else |
| `Discovery.OverlayHides` | controller/k8s/index/src/lookup.rs:149-153 | Two raw values look the same after the overlay if and only if they differ at most in `_health_check` |
| `Translation.DecisionSurvives` | controller/grpc/src/lib.rs:146-265 | `Inbound::try_from(to_server(s))` succeeds and the client's check admits a connection if and only if some authorization of `s` permits it; the labels name the least such authorization in map order and say whether it asks for TLS and for an identity |
| `Translation.ProtocolSurvives` | client/src/lib.rs:196-215 | The protocol arrives intact if and only if its timeout fits the wire form; a longer one arrives as the longest that does |
| `Translation.PlainClientsMayUseTls` | client/src/lib.rs:122-189 | A client admitted without TLS is admitted with TLS under any identity |
| `Translation.ResourceDecision` | controller/k8s/index/src/authz.rs:163-213 | From the resources to the client: whatever authorizations a namespace holds, the client of a server admits a connection if and only if some resource that is accepted and selects the server says so, field by field |
| `Translation.NetworksSurvive` | controller/grpc/src/lib.rs:195-215 | Networks keep their meaning on the wire; the empty list becomes all addresses of both families |
| `Translation.AuthnSurvives` | client/src/lib.rs:244-270 | Authentication requirements keep theirs, identities and suffixes apart |
| `Translation.ScanFindsFirst` | client/src/lib.rs:122-189 | Both checks return the labels of the first authorization that permits the connection |
| `Translation.MissingNetworksAreRefused` | client/src/lib.rs:226-228 | Decoding refuses an authorization without networks |
| `Resources.AuthzPermitsAsWritten` | controller/k8s/index/src/authz.rs:163-213 | A parsed authorization permits exactly what the resource says: no networks or none listed means all, exceptions excluded, globs and service accounts as written |
| `Resources.ParsesIfAccepted` | controller/k8s/index/src/authz.rs:163-259 | A `ServerAuthorization` parses if and only if it gives exactly one of name and selector, all networks and exceptions are CIDRs, and it admits anyone, any TLS client, or at least one identity or service account |
| `Resources.KubeletIpsMeaning` | controller/k8s/index/src/node.rs:203-220 | A node loads if and only if it has CIDRs and each has a first host; its addresses are those hosts, one for each CIDR and in order |
| `Resources.MkMtlsAuthn` | controller/k8s/index/src/authz.rs:215-259 | The loops push one match per identity and service account, or fail on an empty result |
| `Policy.KubeletAccessIsExact` | controller/k8s/index/src/lookup.rs:122-131 | The overlay admits the kubelet's addresses and otherwise decides as the policy without that entry |
| `Policy.EmptyKubeletListAdmitsEveryone` | controller/k8s/index/src/lookup.rs:123-129 | The guard matters: an empty kubelet list would admit everyone |
| `Policy.DefaultPolicyMeans` | controller/k8s/index/src/default_allow.rs:79-173 | What each default mode admits; without cluster networks the cluster modes admit every network; the protocol is to be detected within the configured time |
| `Policy.DetectConfigAdmits` | controller/k8s/index/src/default_allow.rs:151-173 | What a detect configuration admits |
| `Policy.PlainAdmissionIsWeakest` | client/src/lib.rs:145-166 | Admission in plaintext implies admission over TLS, on the controller's side |
| `Net.HostNetIsOneAddress` | controller/core/src/network_match.rs:15-19 | The network made from an address holds that address only |
| `Net.ContainsMeans` | client/src/lib.rs:292-294 | A network holds exactly the addresses of its family with the same leading bits, as many as its prefix is long |
| `Net.AnyNetworkIsEverything` | controller/grpc/src/lib.rs:195-206 | The two default networks hold every address |
| `Order.FirstIsLeast` | controller/grpc/src/lib.rs:174-178 | The first name in map order that satisfies a condition is the least that does |
| `Identity.ShowOfParse` | controller/core/src/identity_match.rs:15-28 | Printing a parsed identity gives back its string |
| `Identity.ParseOfShow` | controller/k8s/index/src/authz.rs:226-242 | Parsing a printed identity gives it back if and only if its parts are dot-free and its name is not a glob |
| `Identity.GlobSurvivesSplitAndJoin` | client/src/lib.rs:299-308 | A glob split on dots and joined by the client is the glob without its star |
| `Identity.ParsedIdentityAcceptsAsWritten` | controller/k8s/index/src/authz.rs:226-242 | A parsed pattern accepts exactly the identities the pattern describes |
| `Identity.Format` | controller/core/src/identity_match.rs:16-27 | `Display` writes exactly the pattern, piece by piece |
| `Labels.MatchesAsDefined` | controller/k8s/api/src/labels.rs:53-69 | A selector is evaluated as Kubernetes defines it if and only if it has no `NotIn` on a key the labels carry, or the rest of it fails, or such expressions disagree among themselves |
| `Labels.ExprMatchesAsDefined` | controller/k8s/api/src/labels.rs:134-150 | The same for one expression |
| `Labels.NotInIsInverted` | controller/k8s/api/src/labels.rs:141-146 | A concrete selector that is evaluated the other way round |
| `Ports.NamedMeaning` | controller/k8s/index/src/pod.rs:238-262 | A name resolves to exactly the ports whose first TCP declaration carries it, each once |
| `Ports.DeclaredMeaning` | controller/k8s/index/src/pod.rs:238-243 | The declarations of a pod are its containers' TCP entries (no protocol, or `TCP`), each once and in order, their numbers modulo 2^16 |
| `Ports.DeclaredPorts` | controller/k8s/index/src/pod.rs:238-253 | A port is declared if and only if some entry exposes it |
| `Ports.NamedPorts` | controller/k8s/index/src/pod.rs:238-262 | A name resolves to exactly the ports whose first exposing entry carries it |
| `IndexState.SelectsPortMeaning` | controller/k8s/index/src/pod.rs:354-365 | A server selects a port if and only if its selector matches and its reference is the port's number or the name of the first declaration of that port |
| `Ports.NamedArePorts` | controller/k8s/index/src/pod.rs:254-258 | Named ports exist |
| `Ports.NamesAreDisjoint` | controller/k8s/index/src/pod.rs:254-256 | No port answers to two names |
| `Servers.AuthzIndex.Apply` | controller/k8s/index/src/authz.rs:29-54 | The new authorization index, server index and channels, for every outcome; the error leaves all as it was |
| `Servers.AuthzIndex.Delete` | controller/k8s/index/src/authz.rs:56-59 | The entry is gone |
| `Servers.SrvIndex.AddAuthz` | controller/k8s/index/src/server.rs:36-50 | Every server's new entry and publication, whatever the order of the walk |
| `Servers.SrvIndex.RemoveAuthz` | controller/k8s/index/src/server.rs:52-56 | The same for removal |
| `Servers.SrvIndex.AddTo` | controller/k8s/index/src/server.rs:167-173 | One server's new entry and publication |
| `Servers.SrvIndex.RemoveFrom` | controller/k8s/index/src/server.rs:175-182 | One server's new entry; nothing is sent if it did not hold the authorization |
| `Servers.SrvIndex.Create` | controller/k8s/index/src/server.rs:80-103 | A new server's entry and channel |
| `Servers.SrvIndex.Update` | controller/k8s/index/src/server.rs:105-159 | An existing server's new entry and publication, with the comparison of protocols as written |
| `Servers.SrvIndex.Apply` | controller/k8s/index/src/server.rs:74-161 | Index and channels after either |
| `Pods.PodIndex.LinkServerPort` | controller/k8s/index/src/pod.rs:325-349 | A bound port is left alone, an unbound one is bound and told |
| `Pods.PodIndex.LinkServer` | controller/k8s/index/src/pod.rs:307-313 | One server claims exactly the ports it selects, and they leave `remaining_ports` |
| `Pods.PodIndex.LinkPod` | controller/k8s/index/src/pod.rs:302-323 | After the walk, in any order: unclaimed ports are reset, bound and still claimed ones kept, unbound ones bound to a claimant |
| `Pods.PodIndex.LinkServers` | controller/k8s/index/src/pod.rs:267-271 | All pods, in any order; no other channel is touched |
| `Pods.PodIndex.ResetServer` | controller/k8s/index/src/pod.rs:273-293 | Exactly the ports bound to the server return to their default |
| `Pods.PodIndex.ExtractPorts` | controller/k8s/index/src/pod.rs:230-265 | Ports, names and receivers of the nested containers: TCP only, modulo 2^16, first occurrence wins, each with a fresh channel on the default policy |
| `Pods.PodIndex.Apply` | controller/k8s/index/src/pod.rs:146-227 | All outcomes for a new, queued, ignored, relabelled or unchanged pod; `set` cannot fail |
| `Nodes.NodeIndex.GetOrPushPending` | controller/k8s/index/src/node.rs:31-54 | Addresses of a known node, or the pod queued under an unknown one |
| `Nodes.NodeIndex.ClearPendingPod` | controller/k8s/index/src/node.rs:56-68 | One queue entry removed and reported, or none there |
| `Nodes.NodeIndex.ClearPendingPods` | controller/k8s/index/src/node.rs:70-83 | Exactly the known nodes remain |
| `Lookup.Writer.Set` | controller/k8s/index/src/lookup.rs:45-67 | Publishes a pod's receivers, or refuses one that is there |
| `Lookup.Writer.Unset` | controller/k8s/index/src/lookup.rs:69-85 | Returns and removes a pod's receivers, and its namespace with the last of them |
| `Indexer.NamespaceIndex.GetOrDefault` | controller/k8s/index/src/namespace.rs:32-40 | Finds a namespace or adds an empty one; no other changes |
| `Indexer.Index.constructor` | controller/k8s/index/src/lib.rs:96-121 | The empty index is in order |
| `Indexer.Index.ApplyAuthz` | controller/k8s/index/src/authz.rs:99-106 | Does the operation's step and keeps the index in order; succeeds if and only if the object parses |
| `Indexer.Index.DeleteAuthz` | controller/k8s/index/src/authz.rs:115-125 | Does the operation's step and keeps the index in order |
| `Indexer.Index.ApplyServer` | controller/k8s/index/src/server.rs:196-210 | Does the operation's step and keeps the index in order |
| `Indexer.Index.RmServer` | controller/k8s/index/src/server.rs:224-239 | The same; fails if and only if the server is not indexed |
| `Indexer.Index.ApplyPod` | controller/k8s/index/src/pod.rs:46-68 | The same; never fails |
| `Indexer.Index.RmPod` | controller/k8s/index/src/pod.rs:83-104 | The same; fails if and only if the pod is neither queued nor indexed; `unset` cannot fail |
| `Indexer.Index.ApplyNode` | controller/k8s/index/src/node.rs:97-135 | The same, draining the queue in any order; fails if and only if the node is new and does not load |
| `Indexer.Index.DeleteNode` | controller/k8s/index/src/node.rs:138-145 | The same; fails if and only if there is no such node |
| `Indexer.Index.ResetAuthzs` | controller/k8s/index/src/authz.rs:128-160 | The restart is the listed applications followed by the deletion, in some order, of what was indexed and is not listed |
| `Indexer.Index.ResetServers` | controller/k8s/index/src/server.rs:242-272 | The same for servers |
| `Indexer.Index.ResetPods` | controller/k8s/index/src/pod.rs:107-140 | The same for pods, after dropping every queue |
| `Indexer.Index.ResetNodes` | controller/k8s/index/src/node.rs:148-181 | The same for nodes; known ones that are listed are skipped |
| `Indexer.Index.Handle` | controller/k8s/index/src/lib.rs:145-176 | Handling an event does what the event's operations do |
| `Indexer.Index.Run` | controller/k8s/index/src/lib.rs:144-193 | Handling a sequence of events is a run of the state machine |
| `Indexer.Index.Get` | controller/k8s/index/src/lookup.rs:99-104 | Reads a port's policy through both channels, which always exist |

## Left out

- Discovery.Answer: the events are handled before the lookup; concurrent readers of the lookup map are not modelled, because only the indexing loop writes it and each read is of one entry.
- Delivery.TogetherKeeps: follows one stream, which subscribes once, while its port is in the lookup map; streams do not affect one another. The sends of an operation may come in any order that creates a channel before pointing to it, and a channel may also be sent again what it holds.
- PodIntake.PodsAreLive: is about stable objects; without them `PodIntake.RestartIsLiveIff` gives the exact condition for one restart and `Examples.ForgottenRun` a case in which it fails.
- Stream.ComesToRest: counts no `Spin` steps, that is, the busy polling after an inner sender is gone; wakers and scheduler fairness are not modelled.
- Stream.FrugalAndGenuine: a stream that ends may have left an update of its last inner channel unread; the source promises nothing there.
- Convergence.OrderDoesNotMatter: is about Applied events, each of which is one operation; deletions and restarts have no counterpart in the property.
- Indexer.Index.Run: the readiness flag and the logging of errors are left out; error messages are reduced to success or failure.
- Indexer.Index.ResetPods: the nested map of prior names is one set of identifiers, and the removals come in any order, of which the source's namespace-by-namespace order is one.
- Pods.PodIndex.Apply: a pod's record is a value in the index's map, replaced on update; the source updates it in place and nothing else refers to it. The same holds for server records.
- Pods.PodIndex.ExtractPorts: a channel is identified by who created it and a serial number, and its receiver is the one in the lookup map; receivers held by streams are in `Stream` and `Joint`.
- Resources.KubeletIpsMeaning: parsing a CIDR and taking its first host is the datatype `CidrText`; the text itself is not modelled.
- Translation.DecisionSurvives: the conversions of foreign types (addresses, networks, durations) are modelled by what they preserve; a duration of more than 2^63-1 seconds is cut to that.
- Labels.MatchesAsDefined: `Exists` and other operators that the source does not have are not part of it.
- Policy.DefaultPolicyMeans: parsing and printing of modes are not theorems, because they are finite.
- The gRPC and HTTP servers, `response_stream`, shutdown, the admin server and both `main.rs` are plumbing.
- `client/src/watch_ports.rs` and `controller/k8s/api/src/watch.rs` reconnect to network streams; their output is an arbitrary sequence of events.
- Custom resource definitions, schemas, serialization and deployment files are declarative.
