# A verified model of docker-in-kubernetes

The daemon answers the Docker Engine API by creating Kubernetes pods. Its HTTP handlers race over three shared stores:
the pending containers (created, not yet started), the live pods, and the registry of open port forwarders. This
project models that concurrency, the stream framing of `docker attach` and `docker logs`, and the algebra of names,
ports and image references, and proves what the design relies on.

`dafny verify dfyconfig.toml` checks everything.

## How the model is built

**Lifecycle.** `PendingSpec` states each locked section of the pending store as a relation between maps; `PendingStore`
proves the imperative latch and store (loops that delete while they iterate, fields set once) against it. `Lifecycle`
is a transition system whose atomic steps are those locked sections and the single apiserver calls. Any number of
create, start, wait, attach, rm, stop and kill handlers interleave, with pods appearing, disappearing and the clock
advancing at any time. `LifecycleRuns` holds for every run, `Handlers` says what single handlers do, and `Witnesses`
has the runs that break a promise. `QuietRuns` holds for the runs in which nothing is removed: no pod deletion, no rm,
stop, kill or expiry of a pending entry, an accurate Get, and a Create that fails only when the pod exists. The state
keeps three histories for the statements: `accepted` (the 201 answers, in order), `claimed` (those given while no pod
of that name was live) and `realized` (specs for which `pods.Create` succeeded).

**Forwarders.** `Registry` and `TcpForwarder` are the imperative classes; a `Loopback.Host` is the operating system's
table of bound ports, so leaks and double closes show in it. `Ownership` is the transition system of starts, watchers,
explicit closes and shutdown over the registry.

**Framing.** `Framing` has the frames and, as the specification, an independent demultiplexer written after the
"Stream format" section of ContainerAttach in the Docker Engine API v1.43. `Multiplexer` has the writers over a
connection that may take any part of any write and then break. `FramedWriters` is the transition system of goroutines
that share the mutex, one step per lock, write call and return.

**Names, ports, images, polling.** `Names`, `Ids`, `Ports`, `PortCounts`, `HostPorts`, `Images`, `ImageRefs` and `Polling`. Loops
over Go maps pick the next key nondeterministically and are proved against specifications that do not mention an order.

SHA-256 is a parameter, any function from strings to strings. Theorems that need 64 hex digits ask for that
(`Ids.IsDigest`); the theorems on quiet runs also ask that no two of the finitely many pod names a run requests share
an ID (`QuietRuns.SoundIds`). `unicode.ToLower` is any function that leaves `[a-z0-9-]` alone. Random suffixes, clocks,
context cancellation and apiserver answers are parameters or nondeterministic choices.

## What turned out false

Each of these is kept as the code has it, with the exact condition under which the promise holds:

- An entry can leave the pending store with its waiters never told. `LifecycleRuns.UndecidedRemovals` says exactly when:
  the create-conflict rollback, and a removal by ID after the entry was replaced. `Witnesses.RollbackStrandsWaiter` and
  `Witnesses.StaleRemovalLosesAccepted` reach both; the second loses a container that had been answered 201.
- A name can be ambiguous although it is no container's ID: exactly when one container's generated pod name is another's
  `--name`, which takes a pod name ending in a dash (`LifecycleRuns.NamesUnambiguous`). In exactly that case the pending
  lookup and FindByID can disagree, too (`LifecycleRuns.PendingAndLiveLookupsAgree`). `Witnesses.AmbiguousName` reaches
  it: the named container has to come first (`Witnesses.ClashNeedsNamedFirst`).
- `GeneratedName` is no label exactly when the cleaned prefix has 62 characters (`Names.GeneratedNameIsLabel`,
  `Names.GeneratedNameEndingInDash`).
- Inspecting and creating again loses mappings exactly when a port and protocol is mapped twice
  (`Ports.InspectRoundTrip`).
- `canonicalRef` is idempotent exactly on references without one hub prefix behind another
  (`ImageRefs.CanonicalIdempotent`, `ImageRefs.CanonicalNotIdempotent`).
- An image pulled without a tag from a registry with a port is not found by the name it was pulled by;
  `ImageRefs.UntaggedPullIsFound` has the exact condition for all names.

## Model

| member | source | states |
|---|---|---|
| PendingStore.PendingContainer.MarkStarted | internal/server/pending.go:30-38 | an undecided container becomes started and not failed, a decided one keeps both fields; the channel ends closed, once in all |
| PendingStore.PendingContainer.MarkFailed | internal/server/pending.go:40-48 | an undecided container becomes failed with this reason and not started, a decided one keeps both fields; the channel ends closed, once in all |
| PendingStore.PendingContainer.WaitForStart | internal/server/pending.go:52-61 | nil only if started, an error only with the recorded reason; without a cancelled context nil exactly when started and an error exactly when failed |
| PendingSpec.SurvivorsMean | internal/server/pending.go:135-146 | an entry survives a reap exactly when it is at most the lifetime old, or there is no lifetime |
| PendingStore.Store.ReapLocked | internal/server/pending.go:135-146 | keeps exactly the unexpired entries, fails the undecided latches of the dropped ones with PendingExpired and touches no other latch |
| PendingStore.Store.FindLocked | internal/server/pending.go:121-131 | an exact key wins; otherwise some entry whose pod name or --name the reference is, or whose ID starts with it at twelve characters; none exactly when nothing matches |
| PendingStore.Store.Reserve | internal/server/pending.go:99-111 | after reaping, inserts exactly when the --name matches nothing and the ID is free; otherwise the map stays as reaped |
| PendingStore.Store.GetByRef | internal/server/pending.go:114-119 | reaps, then finds among the survivors only |
| PendingStore.Store.Remove | internal/server/pending.go:148-152 | deletes that ID and nothing else, whoever holds it |
| PendingStore.Store.List | internal/server/pending.go:154-163 | every unexpired entry exactly once |
| Lifecycle.InvNext | internal/server/containers.go:166-427 | every step of every handler keeps the store and latch invariant and only evolves the histories |
| LifecycleRuns.RunInv | internal/server/pending.go:63-163 | in every reachable state of every interleaving: keys are IDs of their entries, entries are distinct, waiters that returned nil saw a realized start |
| LifecycleRuns.RunEvolves | internal/server/pending.go:30-61 | over any run, with duplicate starts, rm, kill and expiry, a decided latch never changes and no 201 is forgotten |
| LifecycleRuns.WaiterImpliesCreate | internal/server/containers.go:232-244 | a waiter that got nil was preceded by a successful pods.Create of that very spec |
| Handlers.MarkStep | internal/server/containers.go:232-258 | the step after a successful Create turns an undecided latch into Started, after a failed one into CreateFailed, in rm into PendingRemoved; no other latch changes |
| Handlers.ReapStep | internal/server/pending.go:135-146 | an entry older than the lifetime leaves and its undecided latch becomes PendingExpired; any other stays with its latch |
| Handlers.WaiterAnswers | internal/server/containers.go:278-300 | a waiter can only report the decision of its entry's latch or that its context is done |
| Handlers.WaitersAreRight | internal/server/pending.go:52-61 | what a waiter has reported is the decision in every later state |
| Handlers.FailureHasCause | internal/server/pending.go:30-61 | in every run a failed latch was failed by a failed Create of that entry, an rm of it, or a reap when it was over age, according to the reason |
| Handlers.StartSucceeds | internal/server/containers.go:232-258 | an undisturbed start whose Create succeeds leaves the pod live under its --name, the waiters told Started and nothing pending under the ID |
| Handlers.StartFails | internal/server/containers.go:232-244 | one whose Create fails leaves the pods alone, the waiters told CreateFailed and nothing pending under the ID |
| Handlers.RemoveSucceeds | internal/server/containers.go:380-398 | an undisturbed rm of a pending container tells the waiters PendingRemoved and removes the entry |
| Handlers.ReservedEntry | internal/server/containers.go:166-214 | a reservation holds the hash of namespace/name as ID and is made only where no entry has that ID nor, as ID, pod name or --name, the --name |
| Handlers.NamedCreate | internal/server/containers.go:211-224 | with an accurate Get a named create is answered 201 exactly when no pod has its name, and rolled back otherwise |
| Handlers.LookupLeads | internal/server/containers.go:229-327 | a start goes on to Create, an rm to mark, a wait to wait on the entry found; without one the apiserver is asked |
| Handlers.FindRuns | internal/k8s/pods.go:123-146 | with accurate answers FindByID's two calls find a pod that matches, or answer 404 exactly when none does |
| LifecycleRuns.UndecidedRemovals | internal/server/containers.go:211-244 | a step drops an entry without deciding its latch if and only if it is the conflict rollback or a removal by ID after the entry was replaced |
| LifecycleRuns.AcceptedLostToStranger | internal/server/containers.go:232-258 | an entry already answered 201 is only lost undecided to a handler that works on a different entry |
| Witnesses.RollbackStrandsWaiter | internal/server/containers.go:211-224 | a reachable state in which a waiter blocks on an entry that the rollback has removed undecided |
| Witnesses.StaleRemovalLosesAccepted | internal/server/containers.go:232-258 | a reachable state in which a removal by ID meant for an earlier entry has taken away an accepted one, pending and live nowhere, with a waiter on it |
| Witnesses.AmbiguousName | internal/podspec/name.go:32-44 | a reachable store with two accepted containers that one name finds, as map order has it |
| Witnesses.ClashNeedsNamedFirst | internal/server/pending.go:99-111 | reserve refuses a --name that is a pending pod name, so the clash arises in one order only |
| LifecycleRuns.RunNamed | internal/podspec/spec.go:42-60 | in every run an entry has the pod name SanitizeName makes of its --name, itself a fixed point, or without one a pod name GeneratedName yields, a fixed point unless it ends in a dash |
| LifecycleRuns.NamesUnambiguous | internal/server/pending.go:121-131 | in every reachable store a name that is no ID resolves independently of map order if and only if it is not both the pod name of an unnamed container and another's --name; such a name ends in a dash |
| LifecycleRuns.PendingAndLiveLookupsAgree | internal/k8s/pods.go:123-146 | for the same containers, the pending lookup and FindByID always pick the same pod name if and only if the name does not clash, and one finds something exactly when the other does |
| LifecycleRuns.LookupByIdIsExact | internal/k8s/pods.go:123-146 | a full ID finds its container and no other, pending or live, if and only if it is no other container's ID, --name or pod name; short IDs never interfere |
| LifecycleRuns.ShortIdIsExact | internal/podspec/id.go:16-21 | in every reachable store the first twelve characters of an ID find its container and nothing else if and only if no other entry's ID starts with them or has them as a name |
| LifecycleRuns.PodShortIdIsExact | internal/k8s/pods.go:123-146 | the same for the live pods |
| LifecycleRuns.NameFindsContainer | internal/server/pending.go:121-131 | a container is found by its --name and its pod name, and nothing else is, if and only if that name does not clash |
| LifecycleRuns.FindByIDAnswers | internal/k8s/pods.go:123-146 | the pod of that name, else any with that --name, that ID, or an ID starting with those twelve characters |
| Ids.IdsTellApart | internal/podspec/id.go:10-14 | IDs are equal only for equal namespaces and names, up to collisions of the hash |
| QuietRuns.RunSeparate | internal/podspec/id.go:10-14 | entries of different pod names have different IDs, all along a run, when no two pod names it requests share one |
| QuietRuns.RunQuiet | internal/server/containers.go:211-258 | the inductive invariant of quiet runs holds in every reachable state |
| QuietRuns.AtMostOneNamedCreate | internal/server/containers.go:211-224 | no named create answers 201 after any other create of the same pod name has |
| QuietRuns.ReservationOwnsOrLive | internal/server/pending.go:89-111 | between reserve and Get a create owns its ID in the store or the pod is already live |
| QuietRuns.AcceptedStaysVisible | internal/server/containers.go:232-258 | from its 201 on a container is pending as itself or live in every later state |
| QuietRuns.LookupNeverLosesAccepted | internal/server/containers.go:232-258 | the two-step lookup by full ID never answers 404 for a container accepted before it began |
| QuietRuns.NoWaiterLost | internal/server/containers.go:232-258 | an entry accepted under a --name stays in the store until its latch is decided |
| Registry.Registry.Set | internal/forwarder/forwarder.go:38-45 | binds any handle and closes exactly the displaced one, once; the registry stays valid if and only if the handle was open and not bound |
| Registry.Registry.Close | internal/forwarder/forwarder.go:48-57 | unbinds only that ID and closes its handle once |
| Registry.Registry.Shutdown | internal/forwarder/forwarder.go:68-81 | empties the registry and closes each handle exactly once |
| Ownership.NextConserves | internal/forwarder/forwarder.go:38-81 | every step keeps a unique location for every issued handle |
| Ownership.RunConserved | internal/forwarder/forwarder.go:38-81 | such a location exists in every reachable state |
| Ownership.HandlesConserved | internal/server/containers.go:633-659 | in every reachable state each handle that Open returned is in exactly one place: a start, the registry under one ID, a pending close, or one Close call |
| Ownership.RegisteredIsWatched | internal/server/containers.go:655-683 | in every reachable state a registered ID has an unfinished watcher or a start about to spawn one |
| Ownership.WatcherIteration | internal/server/containers.go:664-683 | an undisturbed watcher iteration on a terminated or missing pod ends with its ID unbound and all others as before, the handle closed by one more call of Close, in no other place, and the watcher done |
| Ownership.WatcherSparesRunning | internal/server/containers.go:664-683 | a watcher does not go on to close after a Get on a pod that runs |
| Ownership.StartOpensOnce | internal/server/containers.go:633-659 | a start opens only where nothing was registered, and registers under its ID what it opened |
| TcpForwarder.Open | internal/forwarder/tcp.go:52-76 | all or nothing: one open listener per nonzero host port in order, or the host's table of bound ports is as before |
| TcpForwarder.TcpHandle.Close | internal/forwarder/tcp.go:128-146 | over any number of calls each listener is closed exactly once and only the handle's own ports are released |
| TcpForwarder.TcpHandle.Add | internal/forwarder/tcp.go:115-119 | the handle owns one listener more |
| TcpForwarder.CloseAll | internal/forwarder/tcp.go:128-146 | the loop closes each listener of the list once and frees exactly their ports |
| Framing.BigEndianOfPut | internal/server/containers.go:851-852 | the big-endian size field reads back as the size |
| Framing.FramesShape | internal/server/containers.go:841-861 | a write of n bytes becomes whole frames of 1 to 65536 bytes with zero padding, n + 8*ceil(n/65536) bytes in all |
| Framing.FirstFrameBytes | internal/server/containers.go:841-861 | the very bytes of a frame: stream, three zeros, four length bytes from the highest, and at most 65536 payload bytes |
| Framing.DemuxConcat | internal/server/containers.go:841-861 | after whole frames a reader continues from a clean state |
| Framing.RoundTrip | internal/server/containers.go:816-861 | demultiplexing any sequence of writes gives, per stream, exactly the concatenation of its writes in order |
| Framing.PartialFrame | internal/server/containers.go:841-861 | the part of a chunk that went out before a failure is delivered, on its stream |
| Framing.DemuxMonotone | internal/server/containers.go:841-861 | further bytes only extend what was delivered, for arbitrary bytes |
| Framing.PrefixSafety | internal/server/containers.go:841-861 | every byte prefix of the output decodes, per stream, to a prefix of what was written |
| Framing.LinesRoundTrip | internal/server/containers.go:150-160 | the writes of the line loop carry exactly the log bytes on stdout, with or without a final newline |
| Framing.LinesAreLines | internal/server/containers.go:563-577 | one write on stream 1 per line, each but perhaps the last ending in its only newline |
| Multiplexer.WriteMultiplexedChunk | internal/server/containers.go:841-861 | puts exactly the frames of the payload on the connection, and a proper prefix of them exactly in the error case |
| Multiplexer.FramedWriter.Write | internal/server/containers.go:822-829 | reports all bytes or none, an error exactly when the frames are incomplete; releases the mutex either way |
| Multiplexer.MultiplexedStdoutStderr | internal/server/containers.go:831-838 | two writers on streams 1 and 2 that share the connection and one fresh mutex, or none with a terminal |
| Multiplexer.LogReader.ReadBytes | internal/server/containers.go:152-152 | splits off the bytes up to and including the first newline; an error exactly when there is none |
| Multiplexer.CopyLines | internal/server/containers.go:563-577 | the loop of logs sends a prefix of the framed lines, and all of them unless the connection broke |
| Multiplexer.AttachLogs | internal/server/containers.go:137-161 | the client decodes exactly the log on stdout and nothing on other streams, raw with a terminal, and a prefix when the connection breaks |
| FramedWriters.RunInv | internal/server/containers.go:816-829 | in every interleaving one writer at a time is inside the framing loop, and wire, log and what it has left to send balance |
| FramedWriters.ReadersSeeLockOrder | internal/server/containers.go:816-861 | what a reader decodes per stream is between the acknowledged and the requested writes, in lock order |
| FramedWriters.NothingLost | internal/server/containers.go:816-861 | on a working connection with the mutex free, the wire is whole frames of exactly all writes so far |
| FramedWriters.SuccessIsDelivered | internal/server/containers.go:822-829 | the payload of a Write that returned success is delivered in one piece |
| FramedWriters.ErrorsMeanBroken | internal/server/containers.go:822-829 | a Write only fails on a connection that breaks |
| Names.TrimmedIsJoin | internal/podspec/name.go:20-23 | replacing, then trimming leaves exactly the maximal alphanumeric runs joined by single dashes |
| Names.SanitizeNameSpec | internal/podspec/name.go:16-29 | fails exactly when the lowercased name has no letter or digit; otherwise the joined runs cut to 63 and right-trimmed, an RFC 1123 label |
| Names.FixedPoints | internal/podspec/name.go:16-29 | the non-empty names it leaves alone are exactly the labels without double dash |
| Names.SanitizeIdempotent | internal/podspec/name.go:16-29 | whatever it returns is a label that it returns again |
| Names.ImageBaseOf | internal/podspec/name.go:47-56 | the base of a reference is what stands between the last slash and the tag or digest |
| Names.RunsOfText | internal/podspec/name.go:13-21 | a text falls into runs at the first characters outside [a-z0-9], however many there are |
| Names.SanitizedText | internal/podspec/name.go:16-29 | fails exactly without a character of [a-z0-9]; otherwise the joined runs, cut to 63 characters, or to 62 where the cut would end in a dash |
| Names.LabelCharacters | internal/podspec/name.go:11-13 | a label is 1 to 63 of [a-z0-9-] with no dash at either end and no two in a row |
| Names.CleanedPrefixText | internal/podspec/name.go:33-37 | an image whose base is letters and digits has the prefix dink- and that base, at most 63 characters |
| Names.GeneratedNameText | internal/podspec/name.go:38-43 | the name is the first 63 characters of prefix, dash and suffix, or all of them |
| Names.SuffixesDistinguish | internal/podspec/name.go:38-43 | two suffixes give the same name if and only if they agree in what the cut leaves of them, which is all six characters for prefixes up to 56 |
| Names.GeneratedNameIsLabel | internal/podspec/name.go:32-44 | 1 to 63 characters, and a label if and only if the cleaned prefix does not have exactly 62 |
| Names.GeneratedNameEndingInDash | internal/podspec/name.go:40-42 | every image of 57 letters or digits gets a name ending in a dash |
| Ports.ParsePortSpecIff | internal/podspec/spec.go:228-244 | a spec parses to (port, protocol) exactly when it is a decimal in 1..65535, alone for tcp or with a slash and tcp, udp or sctp |
| Ports.ParseFormatted | internal/server/summary.go:213-227 | parsing what inspect prints gives back port and protocol |
| Ports.ParsePortBindings | internal/podspec/spec.go:181-226 | for every order of both maps, succeeds exactly when every spec parses, with the sorted sequence of the specified multiset; an error names a spec that does not parse |
| Ports.WalkBindings | internal/podspec/spec.go:187-204 | the loop over the bindings collects exactly their mappings and the bound ports, or stops at a spec that does not parse |
| Ports.ParsedUnique | internal/podspec/spec.go:181-226 | at most one sequence meets that specification, so the result cannot depend on map order |
| Ports.ParsedMembers | internal/podspec/spec.go:181-226 | a mapping is in the result exactly when a binding of a spec for its port has its host port, or, without host port, a bound spec has no binding or an exposed port is not bound |
| PortCounts.ParsedCounts | internal/podspec/spec.go:187-217 | the result has each mapping exactly as often as there are such bindings, bare specs and unbound exposed specs in the request |
| Ports.SortedMeans | internal/podspec/spec.go:218-225 | sorted by port, then protocol name, then host port as text |
| Ports.BuildPortsBindings | internal/server/summary.go:213-227 | the keys are exactly the printed ports of the mappings, and each shows the host port of its last mapping |
| Ports.BindingsKeys | internal/server/summary.go:213-227 | a port is shown exactly when some mapping has it, and no more ports than mappings |
| Ports.LastBinding | internal/server/summary.go:222-225 | of several mappings of one port and protocol the last one is shown |
| Ports.InspectRoundTrip | internal/server/summary.go:213-227 | creating from what inspect shows gives the same mappings back if and only if they are sorted and no port and protocol occurs twice |
| Ports.ParsedAreValid | internal/podspec/spec.go:181-244 | every resulting mapping has a port in 1..65535 and a known protocol |
| Ports.DedupContainerPorts | internal/podspec/spec.go:248-267 | the pod ports are the first occurrences of each (port, protocol), in order |
| Ports.ContainerPortsCanonical | internal/podspec/spec.go:246-278 | on sorted mappings they cover exactly the pairs present, strictly increase, and no two collide once the protocol is a Kubernetes one |
| Ports.PodPortsCover | internal/podspec/spec.go:246-278 | every mapping has a pod port of its number, UDP exactly for udp and SCTP exactly for sctp, and every pod port is that of a mapping |
| HostPorts.AllocateHostPorts | internal/server/containers.go:705-725 | only "" and "0" change, to pairwise distinct ports that were free; every listener is closed again on success and failure |
| HostPorts.AllocatedMeans | internal/server/containers.go:705-725 | "" and "0" become the decimal of the port given, with port and protocol kept; every other mapping is unchanged |
| HostPorts.ForwardedConcat | internal/server/containers.go:755-771 | the conversion goes mapping by mapping |
| HostPorts.ForwardedOne | internal/server/containers.go:755-771 | an empty host port yields nothing, a decimal one a mapping with both numbers |
| HostPorts.ToForwarderMappings | internal/server/containers.go:755-771 | succeeds exactly when every host port is empty or a 16-bit decimal, and converts in order |
| HostPorts.NoMappingLost | internal/server/containers.go:705-771 | allocation then conversion gives one forwarder mapping per port mapping with the same numbers, none with host port 0, when the user's ports are in 1..65535 |
| Images.Store.Record | internal/images/store.go:43-51 | upserts under the canonical reference and keeps every key equal to its record's reference |
| Images.Store.Find | internal/images/store.go:104-120 | independently of map order: exact reference, else :latest, else the one record an ID prefix of four hex digits or more determines |
| Images.Store.Remove | internal/images/store.go:123-145 | returns precisely what Find would and deletes only that key |
| Images.FindByIDPrefix | internal/images/store.go:147-164 | the counting loop returns a record exactly when a single ID has the prefix |
| Images.CreateImage | internal/server/images.go:54-64 | a pull without a name changes nothing; any other records the name with the tag, with latest for an empty one, or as it is with a digest |
| ImageRefs.CanonicalStrips | internal/images/store.go:57-75 | every hub spelling of a name without hub prefix has that name as canonical form |
| ImageRefs.CanonicalByCases | internal/images/store.go:57-75 | which of the five prefixes is cut, the longer before the shorter |
| ImageRefs.CanonicalOfColon | internal/images/store.go:57-75 | canonicalizing and appending any tag commute |
| ImageRefs.CanonicalOfTagged | internal/images/store.go:57-75 | canonicalizing and appending a tag commute |
| ImageRefs.CanonicalIdempotent | internal/images/store.go:57-75 | idempotent if and only if no hub prefix stands behind another |
| ImageRefs.CanonicalNotIdempotent | internal/images/store.go:57-75 | docker.io/library/library/x goes to library/x and that to x |
| ImageRefs.PullKeepsInv | internal/server/images.go:125-133 | every pull keeps keys equal to references and every reference tagged or by digest |
| ImageRefs.ServedKeepsInv | internal/server/images.go:54-123 | so does every sequence of pulls and removals from the empty store |
| ImageRefs.PulledIsFoundByRef | internal/images/store.go:104-120 | a pulled image is found under every spelling of its full reference |
| ImageRefs.PulledRef | internal/server/images.go:125-133 | the key of a pull in terms of name, tag and digest |
| ImageRefs.TaggedPullIsFound | internal/server/images.go:125-133 | an image pulled with a tag is found with that tag |
| ImageRefs.TwoTags | internal/server/images.go:125-133 | pulls of two tags leave two records, each found by its tag |
| ImageRefs.FoundByIdDigits | internal/images/store.go:147-164 | hex digits find an image if and only if they are four or more and start its ID alone, a pulled name of those digits going first |
| ImageRefs.FoundById | internal/images/store.go:147-164 | the same behind sha256: |
| ImageRefs.ReportedIdFinds | internal/images/store.go:26-29 | the ID reported for an image finds it, when no other reference has it |
| ImageRefs.UntaggedPullIsFound | internal/server/images.go:125-133 | an untagged pull is found by its own name if and only if that has a digest, or canonically no colon, or is the hex prefix of the ID of just that image and no reference itself |
| ImageRefs.HubAliases | internal/images/store.go:52-75 | pulled under one hub spelling without a tag, found under any other |
| ImageRefs.ListedIsFound | internal/images/store.go:104-120 | a recorded reference without hub prefix is found by itself |
| ImageRefs.OthersStayFound | internal/images/store.go:123-145 | a removal leaves every other record findable by its reference |
| Polling.ExitCodeIffTerminated | internal/server/containers.go:355-368 | an exit code is observable exactly when podTerminated holds, and is that of terminationOf when there is one |
| Polling.WaitForExit | internal/server/containers.go:332-350 | decided by the first sample that is missing, failed, terminated or cancelled, with that sample's exit code; polling goes on otherwise |
| Polling.WaitersAgree | internal/server/containers.go:332-350 | waiters polling one pod at different times never report different codes when a terminated pod keeps its code |
| Polling.FirstTerminatedSpec | internal/server/summary.go:86-96 | the termination of the first terminated container, none exactly when no container terminated |
| Polling.FatalWaitingSpec | internal/k8s/pods.go:305-316 | the reason is empty exactly when no container is stuck and is that of the first stuck one otherwise |
| Polling.StuckMeans | internal/k8s/pods.go:305-316 | the five waiting reasons that count as stuck |
| Polling.ReadyIff | internal/k8s/pods.go:195-205 | ready means running with the first Ready condition True |
| Polling.WaitForReady | internal/k8s/pods.go:164-189 | decided by the first decisive sample, success before a stuck container before a failed pod before timeout before cancellation |
| Polling.ReadyInTime | internal/k8s/pods.go:164-189 | at most timeout/interval + 2 samples, however the pod behaves |

## Left out

- HTTP routing, hijacking, headers, JSON, SPDY attach, exec and port-forward, client-go, logging and flags: I/O and libraries.
- Networks, events, info, exec, rendering, label filters, resource limits, user labels, durations: easy members only.
- `summaryPorts`, `images.Store.List` and the order of `pendingStore.list`: presentation.
- `pendingStore.put`: used by tests only.
- Real sockets and the proxying of accepted connections (internal/forwarder/tcp.go:78-106); a listener is an entry in the table of bound ports.
- Errors of closing a handle or listener: ignored by the callers, so a close always succeeds here.
- Multiplexer.Conn.Write: a connection that failed once takes nothing more; a connection that recovers in the middle of another writer's frame is not modelled.
- Multiplexer.FramedWriter.Write: starts when the mutex is free; the waiting for it is in `FramedWriters`.
- Multiplexer.CopyLines: a followed log that never ends is represented by its finite beginnings.
- QuietRuns.AtMostOneNamedCreate: holds for quiet runs in which no two requested pod names share an ID; with deletions or an inaccurate Get the code does not promise it.
- Lifecycle.InvNext: attach is the same task as wait on the latch; the parts of the handlers after the pod is found (readiness, forwarding, exit polling) are in `Ownership` and `Polling`.
- Ownership.RegisteredIsWatched: says nothing about a watcher that closes the forwarder of a re-created container of the same name, which the code allows.
- Ports.ParsePortBindings: error texts are reduced to the spec that does not parse; the host IP is carried in the input but, as in the code, not in the result.
- HostPorts.AllocateHostPorts: an allocated port may equal one the user chose in the same request, as in the code.
- Polling.WaitForExit: the stream of samples is any finite sequence, with "still polling" as a result at its end.
- Polling.ReadyInTime: needs a clock that advances by at least the poll interval per round.
- Characters are code points without case folding or normalisation; bytes are used where the source works on bytes.
