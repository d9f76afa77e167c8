# A verified model of the cor runtime

cor runs an application on several pods that share *resources*. This project models the parts of
libcor, its RPC layer and its unit helpers in which pods, threads and messages interleave, and
proves what they guarantee over every run. `dafny verify dfyconfig.toml` checks everything
(Dafny 4.11).

## What is modelled

**Replicated resources** (`ConsistencyObject`, `LocalMonitor`, `ReaderQueue`, `TokenSafety`,
`Protocol*`, `SharedTotal`). Every resource has one consistency object per pod: a readers/writer
monitor, one migrating write token, a replica that is valid or not, and a ticket queue for
incoming requests. `Consistency` has each critical section as a function on the object's fields,
and a class with those fields whose methods are proved against these functions and, field by
field, against the guards and changes of the code. A wait on a condition variable is a guard that
is looked at again, so notifications play no part, except in `ReaderQueue`. These models are built on the same functions:

- `LocalMonitor`: one pod, any number of threads, handlers at any time, tickets in any order.
- `ReaderQueue`: the same pod with the readers' wait queue: who sleeps there and who wakes them.
- `TokenSafety`: all pods, any number of threads, messages handled at most once in any order (all
  but the token replies may be lost or repeated).
- `Protocol`, free runs: one global log of messages; a send appends, each pod has a cursor, a
  delivered request draws a ticket that runs later. The assumptions are **A1**: delivery is
  reliable, once, in one total order, a message takes effect in that order, and tickets are
  numbered in that order; and **A3**: one application thread per pod uses the resource. The
  controller hands each message to a detached thread and so enforces neither order itself.
- `Protocol`, runs: in addition **A2**: a pod delivers only when none of its tickets and none of
  its waiting threads can run. `ProtocolStranding.OvertakenReaderIsStranded` shows what happens
  otherwise. A run is a free run (`ProtocolTheorems.RunIsFree`). `LogPositions` says what the
  functions of the log mean by its positions, and `ProtocolLocal` that every pod of a free run
  goes through a run of `LocalMonitor`.

Appending a message to the log at the moment it is sent is no loss of generality: until the
message is ordered, no other pod can observe it, and its sender's later messages stay behind it.
A resource is the sequence of mutations applied to it, so that "is a prefix of" means "is an
older version of"; the value in an `Invalidate` records what the write section released, it is
not on the wire. `Join` covers replica creation after the resource has been found: the pod joins
the group, whose size is then above 1, and every member including the pod itself gets the
membership message. The object's flags for a pending replica and a pending update are kept as in
the code, which never reads them. Readers on other pods may see an older version while a writer
is active, because invalidations are not acknowledged: no cluster-wide exclusion of readers and
writers is claimed.

**Closures** (`ClosureBarrier`, `ClosureProgress`, `StaticOrganizer`, `ClosureRanks`,
`ResourceManager`). The counting barrier shared by join, barrier and rank-based collective
creation, one member per pod and a resolved closure id, over any number of rounds and any order of
message handling: what it guarantees, and exactly when its members get through; and the member
table, first as one table, then as a replicated resource that pods join concurrently. The create
handler waits once and does not look again, and is modelled so: only a notification wakes it.

**Ids and containment** (`PageManager`, `Containment`, `ResourceManager`). 32-bit page arithmetic
over the main pod and the pods that ask it for pages, and the containment map with the walk to the
enclosing domain. The main page manager is taken to be initialised before any request reaches it.

**RPC** (`RpcCodec`, `RpcCalls`). The byte format of typed arguments, the packed header, and the
table of pending replies with its wrapping counter. Handlers are named by the number of their
call. A number stands for the bit pattern of an arithmetic value, least significant byte first.

**Pool, ranges, mailboxes** (`Pool`, `Ranges`, `Mailer`). The sense-reversing barrier with its
dispatcher, agents and shutdown; the even split of a range and the two-level sum over files and
entries, also as what the pods of a closure add to a replicated total; the mailbox with
receive-any and receive-from.

## Where the code falls short

Each is stated as an exact condition, with a run where one is needed.

- A second local writer is not excluded while the first waits for the token:
  `LocalMonitor.TwoWritersExactlyWhenOvertaking`, `LocalMonitor.OvertakingExactly`,
  `LocalMonitor.OvertakingHappens`.
- Two local writers served by one token leave their pod with the token and deaf to all requests:
  `LocalMonitor.DeafExactly`, `LocalMonitor.DeafStays`, `LocalMonitor.DeafnessHappens`.
- A member of a closure waits for ever if its pod counts a fast member's next message before it
  leaves, or erases the next collective's id when it leaves: `ClosureProgress.FailsExactly`,
  `ClosureProgress.RoundsEndExactly`, `ClosureProgress.OvershootHappens`,
  `ClosureProgress.IdpLossHappens`.
- A reader whose update is overtaken by the next invalidation is never served again:
  `ProtocolStranding.OvertakenReaderIsStranded`, `ProtocolStranding.StrandingHappens`.
- A reader queued behind the last reader of an invalidated replica sleeps on when that one leaves,
  with nothing in its way: `ReaderQueue.ReadersForgottenExactly`, `ReaderQueue.ForgettingHappens`.
- An unnamed member can duplicate a name: `Organizer.NamesStayUnique`, `Organizer.NamesClash`.
- Shutting the pool down before every released agent has read the flag loses that agent's last
  task and never returns: `Pool.ShutdownEndsExactly`, `Pool.BusyShutdownHangs`.
- Page 2^24 starts with the id of the meta domain: `Pages.MetaDomainExactly`, and ids
  come round again: `Pages.RepetitionHappens`. A pod without the main manager never gets a second
  page: `Pages.OnePagePerPod`.
- A call whose key is still in use takes the place of the older handler:
  `RpcCalls.CommitOverwritesExactly`, `RpcCalls.OverwritingHappens`.
- A context that is known only on another pod breaks the walk to the domain:
  `Containment.AllHaveDomainsExactly`, `Resources.ForeignContext`.

## Model

| member | source | states |
|---|---|---|
| Consistency.ConsistencyObject.constructor | libcor/src/cor/services/consistency_object.cpp:8-28 | only the owner starts with the token and a valid replica |
| Consistency.ConsistencyObject.AcquireReadEnter | libcor/src/cor/services/consistency_object.cpp:35-50 | a reader gets past the first wait exactly when nobody writes or queues to write and it is not the second reader of an invalid replica; it asks for an update exactly if the replica is invalid |
| Consistency.ConsistencyObject.AcquireReadFinish | libcor/src/cor/services/consistency_object.cpp:51-63 | the reader resumes exactly when the replica is valid |
| Consistency.ConsistencyObject.ReleaseRead | libcor/src/cor/services/consistency_object.cpp:65-81 | only the reader count changes |
| Consistency.ConsistencyObject.AcquireWriteEnqueue | libcor/src/cor/services/consistency_object.cpp:83-88 | a writer announces itself before it waits |
| Consistency.ConsistencyObject.AcquireWritePass | libcor/src/cor/services/consistency_object.cpp:90-110 | a writer passes the first wait exactly when nobody reads or writes, and either starts or asks for the token |
| Consistency.ConsistencyObject.AcquireWriteFinish | libcor/src/cor/services/consistency_object.cpp:97-110 | the writer resumes exactly when its pod has the token and a valid replica; `_writing` is not looked at again |
| Consistency.ConsistencyObject.ReleaseWrite | libcor/src/cor/services/consistency_object.cpp:112-133 | sends the invalidation and leaves the section |
| Consistency.ConsistencyObject.DrawTicket | libcor/src/cor/services/consistency_object.cpp:183-184 | tickets are numbered in the order of the handlers |
| Consistency.ConsistencyObject.CheckRequest | libcor/src/cor/services/consistency_object.cpp:176-367 | when a ticket may run, which of its flags it raises, when it gives the token away and which message it sends, for own and foreign requests of all three kinds, with the group size a new replica brings; all other fields stay |
| Consistency.ConsistencyObject.HandleMessage | libcor/src/cor/services/consistency_object.cpp:225-379 | what each message that takes no ticket changes, that only a token is acknowledged, and that all else stays |
| Consistency.TicketKeepsThreads | libcor/src/cor/services/consistency_object.cpp:176-223 | running a ticket leaves all thread counters alone, advances the queue by one and sends at most one message |
| Consistency.HandlerKeepsThreads | libcor/src/cor/services/consistency_object.cpp:225-242 | handlers leave all thread counters and the queue alone |
| Consistency.TicketSends | libcor/src/cor/services/consistency_object.cpp:208-361 | only the token holder answers a request, it answers the requester with its value, and a token reply goes out exactly for a token request |
| LocalMonitor.ReadersAndWritersExclude | libcor/src/cor/services/consistency_object.cpp:35-133 | for any number of local threads a reader and a writer are never active together, also while the writer waits for the token and while the reader waits for an update |
| LocalMonitor.ThreadsMove | libcor/src/cor/services/consistency_object.cpp:35-133 | a reader gets into its section exactly on a valid replica and a writer exactly with the token, at once or after its wait; no step moves a thread otherwise, and none is lost |
| LocalMonitor.TwoWritersExactlyWhenOvertaking | libcor/src/cor/services/consistency_object.cpp:90-106 | two local writers can become active together exactly if one passes the first wait while another waits for the token |
| LocalMonitor.OvertakingExactly | libcor/src/cor/services/consistency_object.cpp:90-106 | over a whole run two local writers get past the first wait exactly if one overtakes another that waits for the token |
| LocalMonitor.OvertakingHappens | libcor/src/cor/services/consistency_object.cpp:90-106 | a run of a fresh replica in which that happens |
| LocalMonitor.DeafStays | libcor/src/cor/services/consistency_object.cpp:208-286 | a pod that has the token, counts itself as waiting for it and has no waiting writer stays so for ever and runs no other pod's ticket |
| LocalMonitor.DeafExactly | libcor/src/cor/services/consistency_object.cpp:93-264 | over a whole run a pod becomes deaf exactly if an own token ticket runs after its writer has gone on with the token, or a token comes that no writer waits for any more |
| LocalMonitor.DeafnessHappens | libcor/src/cor/services/consistency_object.cpp:93-264 | a run of two local writers served by one token that makes their pod deaf |
| LocalMonitor.LoneWritersExclude | libcor/src/cor/services/consistency_object.cpp:83-110 | if every writer comes while no other is inside AcquireWrite, no two local writers are active together |
| ReaderQueue.ForgetsExactly | libcor/src/cor/services/consistency_object.cpp:40-81 | a step leaves readers asleep that nothing holds up exactly if they sleep behind the one reader of an invalid replica, and that reader leaves or a token brings a valid one |
| ReaderQueue.ReadersForgottenExactly | libcor/src/cor/services/consistency_object.cpp:35-133 | in a run a reader is ever forgotten exactly if such a step happens |
| ReaderQueue.WhoWakes | libcor/src/cor/services/consistency_object.cpp:35-133 | all sleeping readers wake exactly when a reader goes on with its update, a writer leaves and none waits, or an update arrives; one that looks goes in or falls asleep |
| ReaderQueue.SleepsUntilNotified | libcor/src/cor/services/consistency_object.cpp:40-81 | whatever else happens, sleeping readers sleep on until their queue is notified |
| ReaderQueue.ForgettingHappens | libcor/src/cor/services/consistency_object.cpp:40-81 | a run in which it happens: a reader asks for an update and gets it, an invalidation follows, a second reader comes, and the first leaves |
| TokenSafety.OneTokenOneWritingPod | libcor/src/cor/services/consistency_object.cpp:83-110 | with any number of threads, any handling order and any ticket order, the token is in exactly one place and an active writer's pod has it: two pods never write at once |
| ProtocolTheorems.InvHolds | libcor/src/cor/services/consistency_object.cpp:35-379 | the invariant on pods, tickets, token, replies and values holds in every state of every run |
| ProtocolTheorems.ExactlyOneToken | libcor/src/cor/services/consistency_object.cpp:225-293 | the token is at exactly one pod or in exactly one token reply that its pod has not been delivered; a writer holds it |
| ProtocolTheorems.ServedInRequestOrder | libcor/src/cor/services/consistency_object.cpp:244-298 | the k-th token reply in the log goes to the pod that made the k-th token request and comes from the one that made the request before, or from the owner |
| ProtocolTheorems.OnlyTheHolderAnswers | libcor/src/cor/services/consistency_object.cpp:323-367 | running a request's ticket sends a reply exactly at the pod that asked for the token last before the request, or the owner if none did, which is never the requester |
| ProtocolTheorems.EachRequestAnsweredOnce | libcor/src/cor/services/consistency_object.cpp:176-367 | when a pod makes a request it has been sent exactly as many replies as it made requests before; at any time it has been sent a reply for each request but at most one, which it then waits for |
| ProtocolTheorems.TokenFindsOwnTicketRun | libcor/src/cor/services/consistency_object.cpp:246-264 | no token reaches a pod before it has run its own request's ticket |
| ProtocolTheorems.RunIsFree | libcor/src/cor/services/controller.cpp:876-910 | whatever holds without A2 holds with it: every run is a free run |
| ProtocolLocal.StepIsLocal | libcor/src/cor/services/consistency_object.cpp:35-379 | a step of the protocol takes its pod through sections of its monitor, appends to the log exactly what these send, and leaves every other pod alone |
| ProtocolLocal.PodRunsItsMonitor | libcor/src/cor/services/consistency_object.cpp:35-379 | refinement: in every free run, each pod goes through a run of its readers/writer monitor |
| ProtocolTheorems.RepliesCarryAllReleases | libcor/src/cor/services/consistency_object.cpp:208-361 | without A2: every reply and new replica carries exactly what the last invalidation before it in the log released, and every release extends all earlier ones |
| ProtocolTheorems.WriterStartsFromLatest | libcor/src/cor/services/consistency_object.cpp:83-121 | without A2: a write section starts from what the last invalidation in the log released |
| ProtocolTheorems.HolderStaysValid | libcor/src/cor/services/consistency_object.cpp:300-321 | without A2: a token holder is valid and is delivered no foreign invalidation, update or token |
| ProtocolTheorems.VersionNeverDecreases | libcor/src/cor/services/consistency_object.cpp:225-321 | without A2: the version at each pod never decreases |
| ProtocolTheorems.ReaderSeesDeliveredWrites | libcor/src/cor/services/consistency_object.cpp:35-63 | without A2: AcquireRead returns a version that includes every release the pod has been delivered and all its own |
| ProtocolValues.ValuesStep | libcor/src/cor/services/controller.cpp:816-955 | without A2: every step of every pod keeps the invariant on values held, sent and in flight |
| ProtocolProgress.NoClientStranded | libcor/src/cor/services/consistency_object.cpp:35-379 | when no internal step is possible and nobody is inside a section, no client is blocked, and the next acquire of each passes its first wait |
| ProtocolProgress.InternalStepsUseWork | libcor/src/cor/services/consistency_object.cpp:176-379 | every delivery, ticket and resumption uses up a bounded amount of work |
| ProtocolProgress.InternalStepsEnd | libcor/src/cor/services/consistency_object.cpp:176-379 | from any reachable state the pods come to rest unless applications keep calling |
| ProtocolStranding.OvertakenReaderIsStranded | libcor/src/cor/services/consistency_object.cpp:47-58 | a reader whose update has come, but whose pod delivers its next message first, waits for ever exactly if that message is another pod's invalidation: in every continuation it never becomes ready and no reply is sent to it |
| ProtocolStranding.StrandingHappens | libcor/src/cor/services/consistency_object.cpp:300-308 | a run of two pods in which it happens |
| ProtocolSingleCopy.MutationsActOnOneCopy | libcor/src/cor/services/consistency_object.cpp:83-133 | without A2: every mutation acts on the result of all earlier mutations of all pods, as on one shared object |
| ProtocolSingleCopy.ReplicasArePrefixes | libcor/src/cor/services/consistency_object.cpp:225-321 | without A2: every replica is a prefix of the mutations so far, and complete at the token holder |
| Resources.ResourceManager.CreateStaticGroupEnter | libcor/src/cor/services/resource_manager.cpp:424-431 | makes the closure's entry once, and touches no other closure |
| Resources.ResourceManager.HandleCreateStaticGroup | libcor/src/cor/services/resource_manager.cpp:443-454 | counts a join message if the entry exists, otherwise waits |
| Resources.ResourceManager.CountMessage | libcor/src/cor/services/resource_manager.cpp:450-477 | counts a message without looking, as after the join handler's one wait and for every barrier message |
| Resources.ResourceManager.LeaveStaticGroup | libcor/src/cor/services/resource_manager.cpp:435-467 | a member leaves exactly when the count is complete, and resets it; a synchronization also erases the collective id |
| Resources.ResourceManager.HandleStaticGroupCCIdp | libcor/src/cor/services/resource_manager.cpp:484-489 | stores the collective id |
| Resources.ResourceManager.GetStaticGroupCCIdp | libcor/src/cor/services/resource_manager.cpp:491-504 | hands out the stored id, or waits |
| ClosureBarrier.NobodyReturnsEarly | libcor/src/cor/services/resource_manager.cpp:424-477 | no member returns from its k-th synchronization before every member has started its k-th |
| ClosureBarrier.WokenFindEntry | libcor/src/cor/services/resource_manager.cpp:443-454 | a join handler that was woken finds the entry although it looked only once: every notification comes after it |
| ClosureBarrier.CounterBounded | libcor/src/cor/services/resource_manager.cpp:450-477 | the counter never exceeds twice the members, and the expected count is always their number |
| ClosureProgress.FailsExactly | libcor/src/cor/services/resource_manager.cpp:435-477 | a step makes a member wait for ever exactly if it counts a message for it while its count is complete, or if the member leaves a round after the join when its pod has handled the next collective's id |
| ClosureProgress.FailedForEver | libcor/src/cor/services/resource_manager.cpp:435-504 | such a member never returns again, whatever happens |
| ClosureProgress.RoundsEndExactly | libcor/src/cor/services/resource_manager.cpp:424-504 | members that go through K rounds each and have done all they can are all through exactly if no such step happened in these rounds |
| ClosureProgress.RoundsAreBounded | libcor/src/cor/services/resource_manager.cpp:424-504 | with at most K rounds each, the number of steps of all members is bounded |
| ClosureProgress.OvershootHappens | libcor/src/cor/services/resource_manager.cpp:437-477 | a run of two members in which the count passes the number of members while one still waits |
| ClosureProgress.IdpLossHappens | libcor/src/cor/services/resource_manager.cpp:462-504 | a run of two members in which the id of a collective is erased before its member reads it |
| ClosureBarrier.CollectiveRefersToRoot | libcor/include/cor/services/resource_manager.tpp:105-123 | every member that returns from a collective round refers to the very resource whose creation by the root was a step of that round |
| Organizer.StaticOrganizer.Join | libcor/src/cor/elements/static_organizer.cpp:28-56 | reports the duplicate exactly if the idp is a member, otherwise the name exactly if some member has it, and then changes nothing; otherwise admits the member with the next rank |
| Organizer.StaticOrganizer.GetIdp | libcor/src/cor/elements/static_organizer.cpp:122-146 | finds the member with this rank, the only one if ranks are unique, and fails exactly if there is none |
| Organizer.StaticOrganizer.GetIdm | libcor/src/cor/elements/static_organizer.cpp:174-188 | the rank of a member, failing exactly for a non-member |
| Organizer.RanksAreJoinOrder | libcor/src/cor/elements/static_organizer.cpp:46-53 | after n joins the ranks are exactly 0 to n-1 in join order |
| Organizer.OutcomeExactly | libcor/src/cor/elements/static_organizer.cpp:28-56 | over any history of joins, failing ones included: a join fails exactly if an earlier successful one had its idp or its stored name, and otherwise its rank is the number of successful joins before it |
| Organizer.DistinctRequestsJoin | libcor/src/cor/elements/static_organizer.cpp:36-53 | fresh idps and distinct names suffice for every join to succeed |
| Organizer.NamesStayUnique | libcor/src/cor/elements/static_organizer.cpp:40-53 | an admitted member keeps the names unique exactly if it has a name or its idp is not used as one |
| Organizer.NamesClash | libcor/src/cor/elements/static_organizer.cpp:40-53 | two members with idps of the first page that end up with one name |
| ClosureRanks.FreshJoinsSucceed | libcor/src/cor/elements/static_organizer.cpp:28-56 | members with fresh idps and distinct names join successfully, each on its own pod's replica, however joins and protocol steps interleave |
| ClosureRanks.EachRankGivenOnce | libcor/src/cor/elements/static_organizer.cpp:46-65 | such members receive each rank from 0 on exactly once, so exactly one sees rank 0 |
| ClosureRanks.AllRanksGiven | libcor/src/cor/elements/static_organizer.cpp:28-65 | once all n have joined, the ranks given are exactly 0 to n-1 |
| ClosureRanks.RankIsNumberOfEarlierJoins | libcor/src/cor/elements/static_organizer.cpp:28-56 | the rank a successful join gives is the number of joins before it by all pods together, whatever the interleaving of the protocol |
| ClosureRanks.ReplicasAgreeOnRanks | libcor/src/cor/elements/static_organizer.cpp:122-188 | every replica, however old, gives each member it knows the same rank, and GetIdp undoes GetIdm on it |
| Pages.PageManager.constructor | libcor/src/cor/services/page_manager.cpp:8-12 | no page and no request yet |
| Pages.PageManager.CreateInitialContext | libcor/src/cor/services/page_manager.cpp:16-27 | the main manager owns the topmost page, the others start out of ids |
| Pages.PageManager.GenerateIdp | libcor/src/cor/services/page_manager.cpp:29-62 | returns the current page less the ids already cut from it, on the main pod from the next page once 256 are cut, or waits after at most one page request |
| Pages.PageManager.GeneratePage | libcor/src/cor/services/page_manager.cpp:64-77 | cuts the next page |
| Pages.PageManager.ReceivePage | libcor/src/cor/services/page_manager.cpp:79-90 | starts on a new page |
| Pages.SameIdExactly | libcor/src/cor/services/page_manager.cpp:41-61 | two places give one id exactly if they are the same place of pages a multiple of 2^24 apart |
| Pages.MetaDomainExactly | libcor/src/cor/services/page_manager.cpp:41-61 | an id is 0 exactly if it is the first of a 2^24-th page |
| Pages.IdsRepeatExactly | libcor/src/cor/services/page_manager.cpp:29-90 | over all pods and any order of messages, an id is the top of the range less 256 for each page and 1 for each place before it; two ids given out are equal exactly if they come from the same place of different pages a multiple of 2^24 apart |
| Pages.IdsAreFresh | libcor/src/cor/services/controller.cpp:495-533 | with at most 2^24-1 pages cut, all ids of all pods are distinct and none is 0 |
| Pages.RepetitionHappens | libcor/src/cor/services/page_manager.cpp:38-61 | a run in which the main pod gives out the id of the meta domain and then its first id again |
| Pages.OnePagePerPod | libcor/src/cor/services/page_manager.cpp:44-54 | a pod without the main manager gives out an id at most 256 times and then blocks for ever |
| Resources.ResourceManager.constructor | libcor/src/cor/services/resource_manager.cpp:50-77 | only the first pod has the meta domain in its map; no references and no groups |
| Resources.ResourceManager.Allocate | libcor/include/cor/services/resource_manager.tpp:61-70 | enters a resource under its context unless it is there already; a fresh or known idp keeps the map a forest |
| Resources.ResourceManager.Reference | libcor/include/cor/services/resource_manager.tpp:93-100 | enters an alias under its context and records what it stands for |
| Resources.ResourceManager.ResolveIdp | libcor/src/cor/services/resource_manager.cpp:179-189 | leads from every reference ever made back to what it was made for, and from anything else to itself |
| Resources.ResourceManager.CollectiveIdp | libcor/include/cor/services/resource_manager.tpp:108-116 | a member finds the collective's idp of its closure by whatever reference it names the closure |
| Resources.ResourceManager.GetDomainIdp | libcor/src/cor/services/resource_manager.cpp:138-151 | the walk ends and returns the ancestor directly below the meta domain, or fails exactly if the chain leaves the map |
| Containment.AllHaveDomainsExactly | libcor/src/cor/services/resource_manager.cpp:138-151 | every resource lies below a domain exactly if every context is the meta domain or in the map |
| Resources.ForeignContext | libcor/src/cor/services/resource_manager.cpp:138-151 | a resource in a context that another pod owns: the walk fails although that context is referred to on this pod |
| Containment.EnterKeeps | libcor/include/cor/services/resource_manager.tpp:27-103 | a fresh idp keeps the forest, and keeps every walk complete exactly if its context is known |
| Containment.OneDomain | libcor/src/cor/services/resource_manager.cpp:138-151 | a resource lies below at most one domain |
| RpcCodec.RoundTrip | libcor/include/cor/external/crazygaze/rpc/RPCParamTraits.h:97-313 | reading a written value gives it back and leaves any following bytes untouched |
| RpcCodec.RoundTripAll | libcor/include/cor/external/crazygaze/rpc/RPCUtils.h:117-141 | the same for an argument list of arithmetic values, strings, nested vectors and tuples |
| RpcCodec.ReadsOnlyEncodings | libcor/include/cor/external/crazygaze/rpc/RPCParamTraits.h:97-313 | conversely a successful read has consumed exactly the encoding of its result: encodings are unique |
| RpcCodec.ReadsOnlyEncodingsAll | libcor/include/cor/external/crazygaze/rpc/RPCUtils.h:117-141 | the same for an argument list |
| RpcCodec.NumberLayout | libcor/include/cor/external/crazygaze/rpc/RPCParamTraits.h:97-113 | byte k of a written arithmetic value has the weight 256^k |
| RpcCodec.TextLayout | libcor/include/cor/external/crazygaze/rpc/RPCParamTraits.h:115-190 | a written string is its length in four bytes and then its characters |
| RpcCodec.VectorLayout | libcor/include/cor/external/crazygaze/rpc/RPCParamTraits.h:195-228 | a written vector is its length in four bytes and then its elements, the k-th one right behind those before it |
| RpcCodec.ArgumentAt | libcor/include/cor/external/crazygaze/rpc/RPCUtils.h:117-141 | argument k of a call stands right behind the encodings of arguments 0 to k-1 and in front of those that follow |
| RpcCodec.ReadsFirstArgument | libcor/include/cor/external/crazygaze/rpc/RPCUtils.h:117-141 | reading the first type off written arguments yields the first argument and leaves what encodes the others |
| RpcCodec.Stream.Write | libcor/include/cor/external/crazygaze/rpc/RPCStream.h:21-25 | appends and leaves the read position |
| RpcCodec.Stream.Read | libcor/include/cor/external/crazygaze/rpc/RPCStream.h:27-33 | takes the next bytes, or fails if there are too few |
| RpcCodec.Stream.Extract | libcor/include/cor/external/crazygaze/rpc/RPCStream.h:45-49 | hands out the buffer and starts over |
| RpcCodec.WriteValue | libcor/include/cor/external/crazygaze/rpc/RPCParamTraits.h:97-305 | appends exactly the encoding of the value |
| RpcCodec.WriteVector | libcor/include/cor/external/crazygaze/rpc/RPCParamTraits.h:207-213 | appends the length and then each element in order |
| RpcCodec.WriteAll | libcor/include/cor/external/crazygaze/rpc/RPCUtils.h:119-131 | appends the arguments in order |
| RpcCodec.ReadValue | libcor/include/cor/external/crazygaze/rpc/RPCParamTraits.h:109-310 | reads what the format says and moves past it, and fails exactly if there is no such reading |
| RpcCodec.ReadAll | libcor/include/cor/external/crazygaze/rpc/RPCParamTraits.h:257-310 | the same for the elements of a tuple or the arguments of a call |
| RpcCalls.HeaderRoundTrip | libcor/include/cor/external/crazygaze/rpc/RPCTable.h:9-51 | unpacking the 64 header bits undoes packing |
| RpcCalls.HeaderLayout | libcor/include/cor/external/crazygaze/rpc/RPCTable.h:9-39 | on the wire the size is the first 32-bit word; the second holds, from bit 0 on, 22 bits of counter, 8 bits of rpc and the flags for reply and success |
| RpcCalls.KeyInjective | libcor/include/cor/external/crazygaze/rpc/RPCTable.h:32-32 | the 30-bit key holds the rpc in its low 8 bits and the counter above, and so tells them apart |
| RpcCalls.CallReachesServer | libcor/include/cor/external/crazygaze/rpc/RPCProcessor.h:17-51 | the server reads the size of the message, the rpc and exactly the arguments of the call, both flags are clear, and bytes behind the message stay |
| RpcCalls.ReplyReachesCaller | libcor/include/cor/external/crazygaze/rpc/RPCTable.h:94-116 | a reply carries its own size, the key of its call, the flags and exactly the result |
| RpcCalls.CommitOverwritesExactly | libcor/include/cor/external/crazygaze/rpc/RPCProcessor.h:21-26 | a new call takes the key of an open one exactly if it has the same rpc and a multiple of 2^22 calls lies between them |
| RpcCalls.OverwritingHappens | libcor/include/cor/external/crazygaze/rpc/RPCProcessor.h:21-26 | a run of 2^22 unanswered calls, after which one more loses the first handler |
| RpcCalls.RepliesFindTheirCalls | libcor/include/cor/external/crazygaze/rpc/RPCProcessor.h:17-80 | with fewer than 2^22 calls committed while any is open, also across the wrap of the 32-bit counter, every reply runs the handler of the call it answers, no handler runs twice, and every call committed is either open and in the table or its handler has run |
| RpcCalls.AbortPending | libcor/include/cor/external/crazygaze/rpc/RPCProcessor.h:68-80 | an abort runs exactly the handlers of the open calls, each once |
| RpcCalls.OutProcessor.Commit | libcor/include/cor/external/crazygaze/rpc/RPCProcessor.h:17-51 | hands out the body of the stream behind a header whose first word is the number of bytes and whose second word holds counter and rpc, and enters the handler under that key |
| RpcCalls.OutProcessor.Call | libcor/include/cor/external/crazygaze/rpc/RPCUtils.h:134-141 | a whole call sends that header with its own size and then exactly the encoded arguments |
| RpcCalls.OutProcessor.ProcessReply | libcor/include/cor/external/crazygaze/rpc/RPCProcessor.h:53-65 | finds and removes the handler of the key |
| RpcCalls.OutProcessor.AbortReplies | libcor/include/cor/external/crazygaze/rpc/RPCProcessor.h:68-80 | empties the table and runs each handler in it once |
| Pool.Barrier.constructor | units/pool.cpp:95-100 | a fresh barrier |
| Pool.Barrier.WaitArrive | units/pool.cpp:104-118 | counts the thread in and gives it the status of the current phase; the last one resets the count and makes the pool idle, no other one does |
| Pool.Barrier.WaitPasses | units/pool.cpp:120-121 | a thread that arrived in some phase passes exactly if the threads have been released since |
| Pool.Barrier.IdlePasses | units/pool.cpp:125-130 | the dispatcher passes exactly if all threads have arrived since the last release |
| Pool.Barrier.ReleaseThreads | units/pool.cpp:132-138 | starts the next phase, with nobody arrived |
| Pool.StepKeeps | units/pool.cpp:37-138 | every step keeps the invariant: idle is exactly all agents blocked in the current phase, and a straggler is at most one release behind |
| Pool.EveryTaskOnceInOrder | units/pool.cpp:37-73 | each agent runs the dispatched (function, argument) pairs once each and in order |
| Pool.DispatchIsNextTask | units/pool.cpp:37-73 | a dispatched task is the next one in the order of tasks and keeps its place for ever |
| Pool.TaskWasDispatched | units/pool.cpp:37-73 | every task in that order comes from the dispatch at its place |
| Pool.CallsFinished | units/pool.cpp:55-73 | an agent's finished calls are as many as the steps at which it finished one |
| Pool.IdleMeansFinished | units/pool.cpp:37-53 | when WaitForIdle returns, every agent has finished every dispatched task |
| Pool.StatusNeverMistaken | units/pool.cpp:104-138 | a waiting agent can pass exactly if there has been a release since it entered, and there is never more than one |
| Pool.RestMeansIdle | units/pool.cpp:104-130 | before a shutdown, agents that have come to rest leave the pool idle |
| Pool.InternalStepsEnd | units/pool.cpp:55-73 | agents come to rest if their tasks return |
| Pool.ShutdownEndsExactly | units/pool.cpp:75-93 | a shutdown joins all agents, with every task run, exactly if no agent was released without having read the flag when it was set; otherwise it never returns |
| Pool.IdleShutdownEnds | units/pool.cpp:75-93 | a shutdown begun while idle ends every agent |
| Pool.ShutdownIsBounded | units/pool.cpp:75-93 | a run goes on for at most 24n + 3 steps after the flag is set |
| Pool.BusyShutdownHangs | units/pool.cpp:75-93 | a run in which a shutdown right after a dispatch loses the task and hangs |
| Ranges.AgentRange | units/utils.hpp:40-65 | in wrapping sizes the range returned is part number `rank` of the even split; for a range that does not run backwards nothing wraps |
| Ranges.SplitLoop | units/utils.hpp:53-61 | the loop yields the start and the end of part `rank - 1` when `r` parts of `d` items have one more |
| Ranges.PartStartClosed | units/utils.hpp:49-64 | a part starts at begin + rank * d + min(rank, r) |
| Ranges.PartsCover | units/utils.hpp:49-64 | parts are contiguous, begin and end with the range, and differ in length by at most one |
| Ranges.InExactlyOnePart | units/utils.hpp:49-64 | every item of the range is in exactly one part |
| Ranges.ProcessChain | cap6/read_chain.hpp:50-60 | sums the entries of its range up to the first that cannot be read, all of them if all can |
| Ranges.ChainEntries | cap6/read_chain.hpp:37-43 | the chain of some files has entry j of file f at the number of entries in the files before f plus j, and no others |
| Ranges.ChainSum | cap6/read_chain.hpp:37-60 | the sum of the chain is the sum over its files of their sums |
| Ranges.PoolSum | cap6/read_chain.hpp:37-60 | the sums of a pool's agents add up to the sum of the chain |
| Ranges.AgentShare | cap6/read_chain.hpp:37-60 | an agent sums exactly its part of the even split of the chain, if all of it can be read |
| Ranges.PoolShares | cap6/read_files_dist_v3.cpp:21-45 | the agents' sums of a pool, in the order of their ranks |
| Ranges.Accumulate | cap6/read_files_dist_v3.cpp:45-45 | adds up the sums of the agents |
| Ranges.PodShare | cap6/read_files_dist_v3.cpp:39-45 | what a pod adds is the sum of all entries of the files in its part of the file range |
| Ranges.TotalIsSequentialSum | cap6/read_chain.hpp:37-60 | split over pods and then over agents, the shares in any order add up to the sum over the files of the range of the sums of their entries |
| SharedTotal.TotalIsShared | cap6/read_files_dist_v3.cpp:40-66 | if each pod adds its share once, in a write section of the replicated total, the total is the sum over the files of the sums of their entries: at the token holder, and at every pod with a valid replica once all is released and delivered |
| SharedTotal.FinalReadIsSequentialSum | cap6/read_files_dist_v3.cpp:59-64 | after all pods have added and released, a read on a pod that has been delivered everything returns that sum |
| Mailboxes.Mailer.CreateMailbox | libcor/src/cor/services/mailer.cpp:154-165 | makes an empty mailbox unless there is one |
| Mailboxes.Mailer.DeleteMailbox | libcor/src/cor/services/mailer.cpp:167-178 | removes the mailbox and no other |
| Mailboxes.Mailer.Insert | libcor/src/cor/services/mailer.cpp:196-204 | appends to one mailbox and touches no other |
| Mailboxes.Mailer.Receive | libcor/src/cor/services/mailer.cpp:115-125 | takes the oldest message, or waits exactly if there is none |
| Mailboxes.Mailer.ReceiveFrom | libcor/src/cor/services/mailer.cpp:127-152 | takes the oldest message of the sender, shifts those behind it by one place and leaves those before it, or waits exactly if there is none |
| Mailboxes.TakesOldest | libcor/src/cor/services/mailer.cpp:115-152 | either receive takes out the oldest message of its sender and keeps all others of every sender in order |
| Mailboxes.FifoPerSender | libcor/src/cor/services/mailer.cpp:115-204 | over any interleaving no message is lost or duplicated, and each sender's messages are received in arrival order |
| Mailboxes.OldestIsNext | libcor/src/cor/services/mailer.cpp:115-204 | over any interleaving a receive-any hands out the oldest arrival not handed out yet, whoever sent it, and a receive-from the oldest such of its sender |
| Mailboxes.ArrivalFrom | libcor/src/cor/services/mailer.cpp:196-204 | the arrivals are the messages inserted, in the order of insertion |

## Left out

- Spread, libevent, libssh, dlopen and cereal: foreign calls; the multicast is the ordered log and serialization copies values.
- ReleaseReplica, DeallocateResource, EraseResource and the reference counters: their trigger is commented out, teardown is unfinished.
- Replacing a resource in place under its readers: the model replaces whole values.
- The replica that a collective's reference creates, and the message of the member of rank 0 to the parent closure.
- Exceptions inside Join, GetIdp and GetIdm keep the lock in the code: the errors are results here and the lock is not modelled on those paths.
- StaticOrganizer.Leave, the lookups by name, DynamicOrganizer and the context-based collectives of the controller: easy members or the same pattern.
- Consistency.ConsistencyObject.DrawTicket: the 64-bit ticket counters do not wrap.
- ProtocolTheorems.ServedInRequestOrder: assumes A2 with A1 and A3, as do all members of the service order and of progress.
- ProtocolProgress.NoClientStranded: for one application thread per pod; the waits of several threads are in LocalMonitor and ReaderQueue only.
- ClosureProgress.RoundsEndExactly: the rounds of one closure; the replica that a collective's reference creates has its own waits.
- ClosureBarrier.NobodyReturnsEarly: one member per pod, and no spurious wakeup of the join handler's single wait.
- ReaderQueue.ReadersForgottenExactly: the readers' queue at its first wait; the writers' queue, its single notifications and spurious wakeups are not modelled.
- Pages.IdsAreFresh: a page request that reaches the main pod before its initial context exists is not modelled.
- Resources.ResourceManager.Allocate: joining the context's organizer and creating the consistency object come before it and are not part of it; an idp that is neither fresh nor known, which page arithmetic rules out, may break the forest.
- RpcCodec.ReadValue: a stream that is too short or has a negative length is a failed read; the code asserts that it is not, or goes on in undefined behaviour.
- RpcCalls.OutProcessor.ProcessReply: a reply without a pending call is a result; the code asserts that it does not happen.
- Generic RPCs, Any, object properties, authentication tokens and the server's table of futures: glue or easy members.
- The write queues of Mailer and of the RPC transport: event arming outside the monitor makes only a coarse atomic step possible.
- Ranges.AgentRange: the number of agents is positive, the code divides by it.
- Ranges.ProcessChain: unbounded integers; the 32-bit sum of the example may overflow.
- SharedTotal.TotalIsShared: unbounded integers, and every entry readable.
- Pool.StepKeeps: needs at least one agent, since a pool of none never becomes idle; one thread dispatches.
