# Verified models of geerpc, geecache, gee and the bolt node

Dafny models of the final day of each framework, with their properties proved
for all inputs, runs and interleavings.

**geerpc.** `RpcClient` has the client's own operations as methods of a class.
`RpcProtocol` lets any number of senders, closers and cancellations interleave
with the receive loop, one lock operation, read, write or channel send per step;
`RpcSafety` proves what every reachable state keeps, `RpcOutcome` which error or
reply each call gets and why. `RpcServer` and
`RpcServerSafety` do the same for the read loop and for the race between
handler, worker and timer. `RpcNet` joins both sides by two lossy pipes
(`RpcWire`), `RpcNetOutcome` ties responses to the calls they are for, `RpcEmptyFailure` runs a
call through it. `RpcDelivery` follows every
request to its response, and `RpcCompletion` proves that all calls complete while
nothing fails. `Discovery` is the round robin.

**geecache.** `Singleflight` is `Group.Do` as a step protocol with a history of
times, `SingleflightResult` ties its results to what `fn` returned, `SingleflightWindow`
says when they are old. `ConsistentHash` is the ring over an arbitrary hash into 32 bits,
`HttpPool` picks peers by it, `PeerUrl` is what a key looks like when it reaches
a peer. `LinkedList` and `Lru` are the cache as a ring of pointers with a map
beside it, refining the plain sequences of `LruSpec`. `Cluster` puts the lookups
of several nodes together, one at a time; `Flights` lets them overlap, with one
singleflight group for each node, and `Forwarding` ties this to the picking of
peers. `Sorting` holds the binary search and the sort.

**gee.** `Trie` is insertion, search and traversal on values, `TrieNode` the
nodes that the source updates in place, proved to hold such values; `RouteTable`
sets them against a flat table of routes, `Paths` splits patterns, `Params` takes
parameters out of a path and puts them back, `Router` joins these. `Context`
runs a handler chain by its index and proves it equal to nested calls,
`ChainFacts` draws the consequences, `Engine` adds groups.

**gee-bolt.** `BoltNode` is the sorted list of pairs of a node.

`Options` holds the option type.

## What turned out not to hold as stated

- A request for an unknown method leaves its body unread, so the next header is
  read from the wrong place (`gee-rpc/day7-registry/server.go:139-142`).
  `RpcServerSafety.AlignedIffRegistered` says exactly when headers stay in
  place, `RpcServerSafety.UnknownMethodMisaligns` gives a run where they do not.
  The end-to-end results therefore assume that all calls name registered methods.
- A method that fails with an empty message cannot be told from success: a call
  can end without error and with the placeholder instead of a reply if and only
  if its method fails that way (`RpcEmptyFailure.EmptyFailureLooksLikeSuccess`).
- "Each key is only fetched once"
  (`gee-cache/day7-proto-buf/geecache/geecache.go:17-19`) does not even hold for
  overlapping lookups: one that is made while another fetches, but gets the lock
  after the other's delete, fetches again
  (`Singleflight.OverlappingDosCanFetchTwice`). Two lookups share a fetch if and
  only if one call was filed in the map when each of them looked
  (`Singleflight.OneFetchIffFiledForBoth`).
- A lookup can get a result from before it was made: if and only if it comes when
  the leader for its key is between the return of `fn` and its second lock
  (`SingleflightWindow.StaleIffCalledInWindow`).
- The key is put into the URL path with the escaping of a query, so a space
  reaches the peer as a plus sign. A forwarded lookup is transparent if and only
  if the key has no space (`Cluster.TransparentIffNoSpace`).
- Peers set in different orders agree if and only if no two of them have a
  virtual node in the same place. Otherwise each of two nodes can take the other
  for the owner of a key. Each then waits in its singleflight group for the
  other's response, and no lookup of that key ever returns
  (`Forwarding.CollisionDeadlocks`). In general a lookup can return if and only if
  its chain of picks reaches a node that keeps the key
  (`Flights.CanReturnIffChainEnds`); agreement is sufficient
  (`Forwarding.AgreementEnds`).
- A key whose forwarding arrives changed can be cached on a node that does not
  keep it, although transport never fails: if and only if the source has the key
  and not the one that arrives (`Cluster.Cluster.PlacedIffProvided`).
- A part that is inserted below a node with a wild child can be absorbed by that
  child, and an earlier route can be lost (`Router.AbsorptionLosesARoute`).
  After any registrations trie and table are the same if and only if none was
  absorbed (`Router.TableIffNoneAbsorbed`).
- A pattern gives back every path that it matches if and only if its names are
  distinct and a `*` part has one (`Params.RoundTripIffNamed`). The route found for
  a path gives it back, under the same condition, if and only if its pattern
  matches the path, which after an absorption it need not
  (`Router.FoundRouteRoundTrips`).
- After a timeout the worker goroutine never ends, in any continuation
  (`RpcServerSafety.TimedOutWorkerLeaks`). When handleRequest has returned its
  worker has ended if and only if the timer did not fire
  (`RpcServerSafety.WorkerLeaksIffTimerFired`).
- `put(old, new, value)` keeps a node sorted if and only if the new key fits
  between the neighbours of the old one's place.

## Model

| member | source | states |
|---|---|---|
| RpcClient.Client.Close | gee-rpc/day7-registry/client.go:58-66 | the first Close succeeds and marks the client, every later one fails and changes nothing |
| RpcClient.Client.RegisterCall | gee-rpc/day7-registry/client.go:75-85 | a call is refused exactly if the client is closed or shut down, and then nothing changes; otherwise it gets the next number, is filed under it, and every pending call stays filed under its own number |
| RpcClient.Client.RemoveCall | gee-rpc/day7-registry/client.go:87-93 | exactly the entry with this number goes, and is returned if there was one |
| RpcClient.Client.TerminateCalls | gee-rpc/day7-registry/client.go:95-105 | every pending call gets the error and exactly one strobe, none leaves the map, the client is shut down |
| RpcSafety.StepKeepsInv | gee-rpc/day7-registry/client.go:75-195 | every step of every goroutine keeps locks, numbers and the one place where each call's completion is owed |
| RpcSafety.CompletedAtMostOnce | gee-rpc/day7-registry/client.go:95-164 | in no interleaving is a call completed twice, nor completed after its own context took it out |
| RpcSafety.NeverInLimbo | gee-rpc/day7-registry/client.go:107-164 | a call neither completed nor withdrawn is in exactly one of: its own send before registration, `pending`, the failing send's hands, the receive loop's hands |
| RpcSafety.NoCallLost | gee-rpc/day7-registry/client.go:95-195 | when receive has ended and the sends have returned, a call has been completed exactly once if and only if its context did not withdraw it |
| RpcSafety.DoneNeverBlocks | gee-rpc/day7-registry/client.go:33-35 | wherever done() comes next, in send, receive or terminateCalls, the channel has room |
| RpcSafety.NoDeadlock | gee-rpc/day7-registry/client.go:75-164 | while a send or removal is unfinished, some step that waits for nobody but a returning write is possible |
| RpcSafety.InternalReducesWork | gee-rpc/day7-registry/client.go:75-164 | each such step uses up some of a bounded amount of work |
| RpcSafety.InternalRunsEnd | gee-rpc/day7-registry/client.go:75-164 | hence such steps alone come to an end, within that amount |
| RpcSafety.InternalRunsFinish | gee-rpc/day7-registry/client.go:75-164 | and when none is left, every send and removal has finished |
| RpcSafety.SendsCanFinish | gee-rpc/day7-registry/client.go:75-164 | from every reachable state some run of such steps, no longer than the work left, finishes every send and removal |
| RpcSafety.NumbersAreDistinct | gee-rpc/day7-registry/client.go:75-85 | no two calls ever have the same number |
| RpcSafety.OneCloseSucceeds | gee-rpc/day7-registry/client.go:58-66 | at most one Close succeeds, and one has once any has returned |
| RpcSafety.NoNumberAfterClose | gee-rpc/day7-registry/client.go:78-80 | once a Close has run, no call gets a number in any continuation |
| RpcSafety.FailedAndCancelledAreTakenOut | gee-rpc/day7-registry/client.go:126-134 | after a failed write or a cancellation the call is out of `pending`, for good, as soon as the send or Call has gone on |
| RpcOutcome.PromiseKept | gee-rpc/day7-registry/client.go:95-164 | whoever is about to complete a call, with whatever error or reply, that is how it is completed, in any continuation |
| RpcOutcome.ServerErrorReachesCaller | gee-rpc/day7-registry/client.go:144-153 | once the loop has read a header with an error for a pending call, that call is completed with exactly this error, whether or not the body can be read |
| RpcOutcome.BodyReachesCaller | gee-rpc/day7-registry/client.go:154-159 | after a header without an error the call gets the body that is read, or the error of reading it |
| RpcOutcome.LookupFindsPending | gee-rpc/day7-registry/client.go:144-145 | the call that a response is for is the pending one with its number, which leaves `pending` |
| RpcOutcome.RefusalReachesCaller | gee-rpc/day7-registry/client.go:113-118 | a send that finds the client closed or shut down completes its call with ErrShutdown |
| RpcOutcome.WriteErrorReachesCaller | gee-rpc/day7-registry/client.go:126-134 | a failed write whose call is still pending completes it with the error of the write |
| RpcOutcome.TerminationReachesCaller | gee-rpc/day7-registry/client.go:95-105 | every call that terminateCalls finds pending is completed with its error |
| RpcOutcome.ErrorsHaveCauses | gee-rpc/day7-registry/client.go:107-164 | over any run: ErrShutdown only for calls that never got a number, a write error only after the call's own write failed, an unreadable body only after a failed body read, the error of terminateCalls only after the loop ended |
| RpcOutcome.CallWaits | gee-rpc/day7-registry/client.go:186-195 | Call returns only when the call has been completed or its context is done; Go does not wait |
| RpcServer.LastDot | gee-rpc/day7-registry/server.go:114-118 | the place of the last dot, or -1 if there is none |
| RpcServer.FindServiceResolves | gee-rpc/day7-registry/server.go:113-131 | a name resolves to a service and a method exactly if it is both joined by a dot, the method name has no dot, and both are registered |
| RpcServerSafety.StepKeepsInv | gee-rpc/day7-registry/server.go:74-195 | every step of the read loop, a handler, a worker or a timer keeps the pairing of program counters, the write lock, the wait group and the place of every header |
| RpcServerSafety.AtMostOneResponse | gee-rpc/day7-registry/server.go:166-195 | whichever of timer and worker wins, at most one response is issued for a request; after handleRequest has returned it is exactly one, and nothing is left but the method itself returning |
| RpcServerSafety.ClosedAfterAllResponses | gee-rpc/day7-registry/server.go:77-91 | when the connection is closed each request header read has had exactly one response, all handlers have returned and no response is half written |
| RpcServerSafety.WorkerSays | gee-rpc/day7-registry/server.go:171-180 | a worker responds with what its method answered, the reply or the message, to the request's own name and number |
| RpcServerSafety.TimeoutSays | gee-rpc/day7-registry/server.go:188-191 | the response after a timeout has the timeout message and no reply |
| RpcServerSafety.RefusalSays | gee-rpc/day7-registry/server.go:83-85 | a refused request is answered with why: the method that is not there, or the body that cannot be read |
| RpcServerSafety.RefusalSaysWhy | gee-rpc/day7-registry/server.go:113-131 | an ill-formed name, a missing service and a missing method each give their own message |
| RpcServerSafety.DrainingProgresses | gee-rpc/day7-registry/server.go:88-91 | while the loop waits for the requests, some step towards closing is possible: no deadlock on the write lock or the channels |
| RpcServerSafety.DrainingCloses | gee-rpc/day7-registry/server.go:88-91 | once the loop has stopped reading, every run is bounded in length, and one after which nothing is possible has closed the connection |
| RpcServerSafety.TimedOutWorkerLeaks | gee-rpc/day7-registry/server.go:168-194 | after a timeout the worker cannot get past its first rendezvous, in any continuation |
| RpcServerSafety.WorkerLeaksIffTimerFired | gee-rpc/day7-registry/server.go:168-194 | over any run: the worker of a request whose timer fired has not passed its first rendezvous; after handleRequest has returned the worker has ended if and only if the timer did not fire |
| RpcServerSafety.AlignedIffRegistered | gee-rpc/day7-registry/server.go:133-156 | all headers were read from a header's place if and only if all requests but the latest named registered methods |
| RpcServerSafety.UnknownMethodMisaligns | gee-rpc/day7-registry/server.go:138-142 | a request for an unknown method can be followed by a header read where its body is |
| RpcNet.StepKeepsInv | gee-rpc/day7-registry/client.go:107-164 | every step of client, server or pipes keeps both logs alternating between header and body, and each frame tied to the call with its number |
| RpcNet.ReplyMatchesCall | gee-rpc/day7-registry/client.go:137-161 | with any calls outstanding and responses in any order, a call completed without error has the answer computed for its own number, method and arguments, and a server error is one that this call can have caused |
| RpcNetOutcome.LookupIsOfFrame | gee-rpc/day7-registry/client.go:140-144 | what the receive loop looks up is the header of the frame read last |
| RpcNetOutcome.ServerErrorReachesCaller | gee-rpc/day7-registry/client.go:144-153 | an error in that header is what the call pending under its number is completed with, whatever client, server and pipes do next |
| RpcNet.BothReadersAligned | gee-rpc/day7-registry/client.go:139-160 | whenever either side is about to read a header or a body, the next frame is of that kind |
| RpcEmptyFailure.EmptyFailureLooksLikeSuccess | gee-rpc/day7-registry/server.go:173-177 | for every registered method, arguments and number, a call can end without error and with the placeholder if and only if its method fails with an empty message |
| RpcDelivery.StepKeepsTracked | gee-rpc/day7-registry/client.go:107-161 | while nothing fails, every step leaves each pending request in its send, on its way, with the server and unanswered, or with its response on its way back |
| RpcCompletion.UnsettledGoesOn | gee-rpc/day7-registry/client.go:107-195 | while nothing fails and some call is unfinished or pending, a step that is no failure, new call or cancellation is possible in client, server or pipes |
| RpcCompletion.GoodReducesWork | gee-rpc/day7-registry/client.go:107-195 | each such step uses up some of a bounded amount of work of both sides and both pipes |
| RpcCompletion.EveryCallCompletes | gee-rpc/day7-registry/client.go:107-195 | from every reachable state in which nothing has failed, a run of such steps is no longer than that amount, and when none is left every call has been completed exactly once unless its own context withdrew it |
| Discovery.MultiServersDiscovery.Update | gee-rpc/day7-registry/xclient/discovery.go:42-47 | replaces the list and leaves the position |
| Discovery.MultiServersDiscovery.Get | gee-rpc/day7-registry/xclient/discovery.go:50-67 | an error without servers and another for an unknown mode; a random selection is the server drawn, a round robin one that at the position; only the round robin moves the position, to one in range |
| Discovery.RoundRobinServes | gee-rpc/day7-registry/xclient/discovery.go:60-63 | in any mix of requests the k-th for the round robin gets the server k places after the first one's, wherever an earlier list left the position |
| Discovery.EachServerOnce | gee-rpc/day7-registry/xclient/discovery.go:60-63 | any stretch of requests with as many round robin ones as servers has exactly one for each server |
| Singleflight.StepKeepsInv | gee-cache/day7-proto-buf/geecache/singleflight/singleflight.go:23-46 | every step keeps lock, map, calls and callers in order |
| Singleflight.OneLeaderPerKey | gee-cache/day7-proto-buf/geecache/singleflight/singleflight.go:28-43 | at most one caller per key is between entering it in the map and deleting it |
| Singleflight.EntryIsOwnedByItsLeader | gee-cache/day7-proto-buf/geecache/singleflight/singleflight.go:33-43 | the entry of a key is the call whose leader has not yet deleted it, and each leader at work has its entry: delete never drops another's call |
| Singleflight.ResultOfOverlappingLeader | gee-cache/day7-proto-buf/geecache/singleflight/singleflight.go:19-46 | what Do returns is what one execution for its key returned, led by a Do that overlaps it in time |
| SingleflightResult.ReturnsWhatFnReturned | gee-cache/day7-proto-buf/geecache/singleflight/singleflight.go:35-45 | over any run: what a Do returns is what fn returned to the leader of its execution, at the recorded time, the only time that fn returned to that leader |
| Singleflight.ExecutionsForOneKeyAreSequential | gee-cache/day7-proto-buf/geecache/singleflight/singleflight.go:19-46 | fn for a key has returned before fn for that key begins again |
| Singleflight.AttachedIffWithin | gee-cache/day7-proto-buf/geecache/singleflight/singleflight.go:28-43 | a Do that has looked its key up is attached to an execution for that key if and only if it looked between the leader's look and the leader's delete |
| Singleflight.OneFetchIffFiledForBoth | gee-cache/day7-proto-buf/geecache/singleflight/singleflight.go:19-46 | two Dos for one key share a fetch if and only if one execution was filed when each of them looked |
| Singleflight.OverlappingDosCanFetchTwice | gee-cache/day7-proto-buf/geecache/singleflight/singleflight.go:19-46 | a run in which two overlapping Dos for one key fetch twice |
| SingleflightWindow.StaleIffCalledInWindow | gee-cache/day7-proto-buf/geecache/singleflight/singleflight.go:28-43 | in every reachable state a Do called now can come to return a result from before now if and only if the leader for its key is between the return of fn and its second lock |
| SingleflightWindow.ResultMayPredateTheCall | gee-cache/day7-proto-buf/geecache/singleflight/singleflight.go:28-43 | such a run exists |
| SingleflightWindow.StaleOnlyInsideTheWindow | gee-cache/day7-proto-buf/geecache/singleflight/singleflight.go:36-40 | in any run, each Do that returned a result from before its call was called in a state in that window |
| Singleflight.NoDeadlock | gee-cache/day7-proto-buf/geecache/singleflight/singleflight.go:23-46 | if fn returns, some caller can go on while one has not returned |
| Singleflight.StepsRunOut | gee-cache/day7-proto-buf/geecache/singleflight/singleflight.go:23-46 | every step but a new call uses up some of a bounded amount of work |
| Singleflight.EveryDoReturns | gee-cache/day7-proto-buf/geecache/singleflight/singleflight.go:23-46 | a run without new calls is no longer than that amount, and when no step is left every Do has returned |
| ConsistentHash.Map.Add | gee-cache/day7-proto-buf/geecache/consistenthash/consistenthash.go:34-43 | keys stay sorted and are the points that have owners; owners are those after adding the peers' virtual nodes in order |
| ConsistentHash.Map.Get | gee-cache/day7-proto-buf/geecache/consistenthash/consistenthash.go:46-58 | the owner of the least point at or above the key's hash, or of the least point if there is none above; nobody on an empty ring |
| ConsistentHash.LeastAtOrAboveOwns | gee-cache/day7-proto-buf/geecache/consistenthash/consistenthash.go:51-57 | a point with no other between it and the hash owns the hash |
| ConsistentHash.LeastOwnsAtTheEnd | gee-cache/day7-proto-buf/geecache/consistenthash/consistenthash.go:51-57 | above all points the least one owns |
| ConsistentHash.ItoaIsNumeral | gee-cache/day7-proto-buf/geecache/consistenthash/consistenthash.go:37 | the number hashed with a peer's name is written as its decimal numeral |
| ConsistentHash.VirtualNodesDiffer | gee-cache/day7-proto-buf/geecache/consistenthash/consistenthash.go:36-40 | the names hashed for the virtual nodes of one peer are pairwise different |
| ConsistentHash.AddAllOwned | gee-cache/day7-proto-buf/geecache/consistenthash/consistenthash.go:34-43 | the points are the old ones and the virtual nodes of the new peers; each is owned by a peer that has it, and changes hands only to a new one |
| ConsistentHash.KeysMoveOnlyToNewPeers | gee-cache/day7-proto-buf/geecache/consistenthash/consistenthash.go:34-58 | after Add every key stays with its owner or moves to an added peer, with collisions and repeated peers too |
| ConsistentHash.SamePeersSameRing | gee-cache/day7-proto-buf/geecache/consistenthash/consistenthash.go:34-43 | without collisions neither the order nor the repetition of peers matters |
| ConsistentHash.OrdersAgreeIffNoCollision | gee-cache/day7-proto-buf/geecache/consistenthash/consistenthash.go:34-58 | all orders of the same peers give every key the same owner if and only if no two peers collide |
| HttpPool.Pool.Set | gee-cache/day7-proto-buf/geecache/http.go:85-94 | a new ring of exactly these peers, and a getter for each of them and for no other |
| HttpPool.Pool.PickPeer | gee-cache/day7-proto-buf/geecache/http.go:97-105 | picks exactly if the ring has an owner that is not this node, and then gives that owner's getter, which is never missing |
| HttpPool.OwnerIsPeer | gee-cache/day7-proto-buf/geecache/http.go:97-105 | the owner of a key is one of the peers, or nobody |
| HttpPool.PickedPeerKeepsTheKey | gee-cache/day7-proto-buf/main.go:77-79 | nodes that set the same peers in any order agree: what one forwards goes to the owner, which does not forward it |
| HttpPool.CollisionCanPingPong | gee-cache/day7-proto-buf/main.go:77-79 | with any collision of two peers there is a key for which each picks the other |
| PeerUrl.KeyArrives | gee-cache/day7-proto-buf/geecache/http.go:113-119 | escaping a key as a query and reading it back as a path gives the key with spaces as plus signs |
| PeerUrl.EscapedIsPlain | gee-cache/day7-proto-buf/geecache/http.go:114-119 | what is put into the URL has only unreserved characters, plus signs and escapes in it |
| PeerUrl.ArrivesUnchangedIffNoSpace | gee-cache/day7-proto-buf/geecache/http.go:113-119 | that is the key itself if and only if it has no space |
| Cluster.SamePeersAgree | gee-cache/day7-proto-buf/geecache/http.go:85-94 | nodes with the same peers and no collision agree on all owners |
| Cluster.Cluster.Get | gee-cache/day7-proto-buf/geecache/geecache.go:67-78 | the source's value or error, or the peer's value; all caches afterwards; every cached value stays the source's; at most one hop, two for a key with a space |
| Cluster.Cluster.Load | gee-cache/day7-proto-buf/geecache/geecache.go:88-108 | asks the picked peer and falls back to the source if the peer is down, its response is lost or it answers with an error; all caches afterwards, what the peer cached before its response was lost included |
| Cluster.Cluster.GetLocally | gee-cache/day7-proto-buf/geecache/geecache.go:110-123 | the source's answer; a value is cached on this node, an error nowhere |
| Cluster.Cluster.Serve | gee-cache/day7-proto-buf/geecache/geecache.go:67-136 | over any run of lookups on any nodes, with evictions, requests that do not arrive and responses that are lost, each non-empty key without a space gets the source's answer; while transport never fails and the source, if it has a key, has the one that arrives at a peer, a key is cached only where it is not forwarded |
| Cluster.Cluster.PlacedIffProvided | gee-cache/day7-proto-buf/geecache/geecache.go:88-123 | while transport never fails, a forwarded lookup of a value that fits leaves every key where it is not forwarded if and only if the source does not have the key without having the one that arrives |
| Cluster.Cluster.LookupIsAccess | gee-cache/day7-proto-buf/geecache/geecache.go:67-136 | a lookup is one read-through access to one cache, the node's own or its peer's, or to both if the peer's response is lost, and leaves all others alone |
| Cluster.Cluster.KeptByPeer | gee-cache/day7-proto-buf/geecache/geecache.go:88-108 | the peer that is asked does not forward the same key |
| Cluster.TransparentIffNoSpace | gee-cache/day7-proto-buf/geecache/http.go:113-140 | a forwarded lookup answers as the source does, whatever the source holds, if and only if the key has no space |
| Flights.StepKeepsInv | gee-cache/day7-proto-buf/geecache/geecache.go:88-108 | every step of every node's group keeps the groups in order, ties each waiting leader to the Do that it asked for, and lets fn return only where the chain of picks ends |
| Flights.CanReturnIffChainEnds | gee-cache/day7-proto-buf/geecache/geecache.go:88-108 | in every reachable state, whatever else is going on, a Do can come to return if and only if the chain of picks from its node reaches a node that keeps the key |
| Forwarding.AgreementEnds | gee-cache/day7-proto-buf/geecache/geecache.go:88-108 | between nodes that agree on all owners every chain ends, after one forward for a key without a space |
| Forwarding.CollisionDeadlocks | gee-cache/day7-proto-buf/main.go:77-79 | with any collision of two peers there is a key for which, in no continuation of any run, any lookup on either node returns |
| LruSpec.FitIsLongestPrefix | gee-cache/day7-proto-buf/geecache/lru/lru.go:47-49 | what is kept is the longest most recent prefix within the budget, everything if there is none |
| LruSpec.LargerBudgetIncludes | gee-cache/day7-proto-buf/geecache/lru/lru.go:36-74 | over any run of read-through accesses with a fixed size per key, the larger cache holds the smaller one's keys as its most recent ones, so more budget never turns a hit into a miss |
| Lru.Cache.constructor | gee-cache/day7-proto-buf/geecache/lru/lru.go:26-33 | an empty cache with this budget |
| Lru.Cache.Get | gee-cache/day7-proto-buf/geecache/lru/lru.go:53-60 | the value stored for the key, which moves to the front; a miss changes nothing; list, map and byte count stay consistent |
| Lru.Cache.RemoveOldest | gee-cache/day7-proto-buf/geecache/lru/lru.go:63-74 | exactly the last entry goes, with one callback for it; nothing on an empty cache |
| Lru.Cache.Add | gee-cache/day7-proto-buf/geecache/lru/lru.go:36-50 | the longest prefix within budget of the new entry and the old others; callbacks for exactly the rest, oldest first; the byte count is the sum of sizes and within budget |
| Lru.Cache.Len | gee-cache/day7-proto-buf/geecache/lru/lru.go:77-79 | the number of entries |
| Lru.EntriesAreDistinct | gee-cache/day7-proto-buf/geecache/lru/lru.go:6-13 | no two entries have the same key, since list and map agree |
| Lru.BytesAreCounted | gee-cache/day7-proto-buf/geecache/lru/lru.go:36-74 | the byte count is that of all keys and values held |
| Lru.ReadThrough | gee-cache/day7-proto-buf/geecache/geecache.go:67-123 | a lookup and the load after a miss make one read-through access of LruSpec |
| Trie.MatchChild | gee-web/day7-panic-recover/gee/trie.go:64-71 | the first child that has the part or is wild, and none only if there is no such child |
| TrieNode.Node.MatchChild | gee-web/day7-panic-recover/gee/trie.go:64-71 | the loop over the children finds that child |
| TrieNode.Node.MatchChildren | gee-web/day7-panic-recover/gee/trie.go:73-81 | all children that have the part or are wild, in order |
| TrieNode.Node.Insert | gee-web/day7-panic-recover/gee/trie.go:19-32 | updating the nodes in place gives the trie that insertion into a value gives, and touches no node of another trie |
| TrieNode.Node.Search | gee-web/day7-panic-recover/gee/trie.go:34-53 | the loops with their height find a node of this trie exactly if the search of the value does, and that node |
| TrieNode.Node.Travel | gee-web/day7-panic-recover/gee/trie.go:55-62 | the shared list grows by the nodes of this trie that have a pattern, in order |
| RouteTable.InsertKeepsSound | gee-web/day7-panic-recover/gee/trie.go:19-32 | absorbed or not, every pattern has as many parts as its node is deep, and every `*` node has a pattern |
| RouteTable.FoundIsWithinPath | gee-web/day7-panic-recover/gee/trie.go:34-53 | a pattern that is found has no more parts than the path |
| RouteTable.SearchIsFirstMatch | gee-web/day7-panic-recover/gee/trie.go:34-53 | search with its backtracking is the first match among the routes in depth-first order, and fails only if none matches |
| RouteTable.MatchesIs | gee-web/day7-panic-recover/gee/trie.go:34-81 | a path matches part for part: equal, or a part that begins with `:` or `*`, and as many parts, or no fewer if the last begins with `*` |
| RouteTable.InsertWritesLanding | gee-web/day7-panic-recover/gee/trie.go:19-32 | an insertion changes the pattern at exactly one place, the one it lands at |
| RouteTable.InsertKeepsUnique | gee-web/day7-panic-recover/gee/trie.go:19-32 | siblings keep different parts |
| RouteTable.UnabsorbedIffLands | gee-web/day7-panic-recover/gee/trie.go:19-32 | an insertion lands at its own parts if and only if no wild sibling absorbed any of them |
| RouteTable.AgreesIffUnabsorbed | gee-web/day7-panic-recover/gee/trie.go:19-32 | an insertion keeps trie and table the same if and only if it is not absorbed |
| RouteTable.InsertKeepsAbsorbed | gee-web/day7-panic-recover/gee/trie.go:19-32 | a path that is absorbed stays so whatever is inserted |
| RouteTable.AbsorbedHasNoPattern | gee-web/day7-panic-recover/gee/trie.go:64-71 | an absorbed path has no pattern in the trie, since no child accepts the part of a later one |
| RouteTable.InsertKeepsUnshadowed | gee-web/day7-panic-recover/gee/trie.go:25-30 | insertion keeps it so that no child accepts the part of a later one |
| RouteTable.FirstMatchIsBefore | gee-web/day7-panic-recover/gee/trie.go:46-50 | the match found stands before every other at the first place where they differ |
| RouteTable.InsertKeepsGrown | gee-web/day7-panic-recover/gee/trie.go:25-30 | siblings stand in the order in which their parts were first registered |
| RouteTable.TravelListsRoutes | gee-web/day7-panic-recover/gee/trie.go:55-62 | the nodes travelled through are those of the routes, in the order that search follows |
| Paths.ParsePatternLoop | gee-web/day7-panic-recover/gee/router.go:21-34 | the loop computes the parts of the items between the slashes |
| Paths.PartsAre | gee-web/day7-panic-recover/gee/router.go:24-32 | these are all non-empty items, in their order, up to and including the first that starts with `*` |
| Paths.ParseOfJoin | gee-web/day7-panic-recover/gee/router.go:21-34 | a slash and any clean parts joined by slashes parse to exactly these parts |
| Paths.JoinSplit | gee-web/day7-panic-recover/gee/router.go:22 | joining the items of a split gives the string back |
| Paths.ParseIsClean | gee-web/day7-panic-recover/gee/router.go:21-34 | no part is empty or has a slash, and a `*` part is the last |
| Paths.SplitJoin | gee-web/day7-panic-recover/gee/router.go:65-68 | joining parts by slashes and splitting again gives the parts |
| Params.RoundTrip | gee-web/day7-panic-recover/gee/router.go:57-71 | for distinct names and a named `*`, putting the parameters back into the pattern's parts gives exactly the parts of the path, the joined tail included |
| Params.ParamAt | gee-web/day7-panic-recover/gee/router.go:57-71 | a `:` part gives its name the path's part at its place, a `*` part the rest of the path joined by slashes |
| Params.ParamIsNamed | gee-web/day7-panic-recover/gee/router.go:57-71 | every parameter has the name of a `:` or `*` part |
| Params.RestoreMatches | gee-web/day7-panic-recover/gee/router.go:57-71 | whatever the parameters, the pattern matches what they give back |
| Params.RoundTripIffNamed | gee-web/day7-panic-recover/gee/router.go:57-71 | a pattern gives back all paths that it matches if and only if its names are distinct and its `*` part is named |
| Router.Router.AddRoute | gee-web/day7-panic-recover/gee/router.go:36-46 | the method's trie is the one built from its patterns in order, and every registered route keeps a handler |
| Router.Router.GetRoute | gee-web/day7-panic-recover/gee/router.go:48-74 | search in the method's trie; what is found was registered, has no more parts than the path, and the parameters are those of the pattern; no index is out of range whatever was registered |
| Router.Router.GetRoutes | gee-web/day7-panic-recover/gee/router.go:76-84 | only routes registered for the method are listed; without absorption exactly those that no later one replaced |
| Router.Router.Handle | gee-web/day7-panic-recover/gee/router.go:86-99 | the handler under the key of the found pattern, which is always there and, for methods without a slash and patterns that begin with one, is the one registered last for this method and pattern; otherwise not found |
| Router.BuildIsSound | gee-web/day7-panic-recover/gee/router.go:36-46 | any sequence of registrations gives a sound trie |
| Router.FoundIsRegistered | gee-web/day7-panic-recover/gee/router.go:48-74 | a found pattern was registered, absorbed or not |
| Router.RegistrationKeepsTableIffUnabsorbed | gee-web/day7-panic-recover/gee/router.go:36-46 | one more registration keeps trie and table the same if and only if it is not absorbed |
| Router.BuildIsTable | gee-web/day7-panic-recover/gee/router.go:36-46 | without absorption the trie holds the last pattern registered for each sequence of parts and nothing else |
| Router.TableIffNoneAbsorbed | gee-web/day7-panic-recover/gee/router.go:36-46 | after any sequence of registrations trie and table agree if and only if none was absorbed; no later one makes up for an absorbed one |
| Router.LookupIsTableLookup | gee-web/day7-panic-recover/gee/router.go:48-74 | without absorption a lookup fails exactly if no registered pattern matches, and else finds, of those that do, the one whose parts were registered first where they first differ |
| Router.ListedIsRegistered | gee-web/day7-panic-recover/gee/router.go:76-84 | whatever is listed was registered, absorbed or not |
| Router.ListingIsTable | gee-web/day7-panic-recover/gee/router.go:76-84 | without absorption the routes listed are those of the table |
| Router.FoundRouteRoundTrips | gee-web/day7-panic-recover/gee/router.go:48-74 | after any registrations, for a found route with distinct names and a named `*`, the parameters give back the path if and only if the found pattern matches it |
| Router.UnabsorbedRouteRoundTrips | gee-web/day7-panic-recover/gee/router.go:48-74 | without absorption they do |
| Router.HandlerIsLast | gee-web/day7-panic-recover/gee/router.go:39-45 | over any sequence of registrations a later one replaces the handler of the same route and of no other |
| Router.AbsorptionLosesARoute | gee-web/day7-panic-recover/gee/trie.go:64-71 | after `/:a` and `/b`, a request for `/x` finds `/b` |
| Router.KeysDiffer | gee-web/day7-panic-recover/gee/router.go:39-45 | handler keys of different routes differ if methods have no slash and patterns begin with one |
| Context.Context.Next | gee-web/day7-panic-recover/gee/context.go:38-44 | the index loop that handlers re-enter terminates and does what the nested calls do, event by event |
| Context.Context.Call | gee-web/day7-panic-recover/gee/recovery.go:26-38 | one handler, Recovery catching what is below it; it leaves the handlers below to run exactly if it neither called Next nor Fail |
| Context.Context.RunScript | gee-web/day7-panic-recover/gee/context.go:38-49 | only the first Next of a handler runs anything, and none after a Fail |
| ChainFacts.StartInOrder | gee-web/day7-panic-recover/gee/context.go:38-44 | handlers start in index order, none skipped and none twice, whatever they do |
| ChainFacts.ScriptSays | gee-web/day7-panic-recover/gee/context.go:38-49 | a handler does exactly what its script says, in that order, unless a panic ends it before |
| ChainFacts.OnionOrder | gee-web/day7-panic-recover/gee/context.go:38-44 | what a handler does before Next comes before everything below it, and what it does after Next after all of that; a panic below ends it |
| ChainFacts.WithoutNext | gee-web/day7-panic-recover/gee/context.go:40-43 | a handler that does not call Next is followed by everything below it |
| ChainFacts.PanicEndsIt | gee-web/day7-panic-recover/gee/recovery.go:26-38 | a panic ends the handler and all above it, up to a Recovery |
| ChainFacts.CalmChainRunsAll | gee-web/day7-panic-recover/gee/context.go:38-44 | if nobody fails or panics, every handler starts exactly once, whether or not those before it call Next |
| ChainFacts.NothingStartsAfterFail | gee-web/day7-panic-recover/gee/context.go:46-49 | no handler starts after any Fail, Recovery's own included |
| ChainFacts.RecoveryFailsIffPanic | gee-web/day7-panic-recover/gee/recovery.go:26-38 | Recovery passes everything through, does not panic, and fails the request, once and at the end, exactly if what is below it panics |
| ChainFacts.CalmChainFailsNothing | gee-web/day7-panic-recover/gee/recovery.go:26-38 | without Fail and panics in any script no request is failed, with Recovery or not |
| ChainFacts.EscapedPanicHasNoRecoveryAbove | gee-web/day7-panic-recover/gee/recovery.go:26-38 | a panic that escapes comes from a handler with no Recovery at or above it |
| ChainFacts.RecoveryFirstIsSafe | gee-web/day7-panic-recover/gee/gee.go:41-45 | no panic escapes a chain with Recovery above everything that can panic |
| Engine.Engine.Group | gee-web/day7-panic-recover/gee/gee.go:49-58 | one more group, its prefix extending its parent's |
| Engine.Engine.Use | gee-web/day7-panic-recover/gee/gee.go:61-63 | appends to this group's middlewares and to no other's |
| Engine.Engine.AddRoute | gee-web/day7-panic-recover/gee/gee.go:65-69 | registers the route below the group's prefix |
| Engine.Engine.ServeHTTP | gee-web/day7-panic-recover/gee/gee.go:119-130 | runs the middlewares of all matching groups and then the route's handler, or the one for unknown routes, as nested calls |
| Engine.AncestorsComeFirst | gee-web/day7-panic-recover/gee/gee.go:119-130 | a request that reaches a group also runs the middlewares of its ancestors, and before the group's own |
| Engine.CollectedOnlyMatching | gee-web/day7-panic-recover/gee/gee.go:119-126 | every middleware that is run comes from a group whose prefix the path has |
| BoltNode.Node.Index | gee-bolt/day3-tree/node.go:28-34 | the lower bound of the key in byte order, and whether the key is there |
| BoltNode.CompareIsByteOrder | gee-bolt/day3-tree/node.go:28-34 | a key comes before another exactly if, at the first place where they differ, it ends or has the smaller byte |
| BoltNode.Node.Put | gee-bolt/day3-tree/node.go:36-45 | the shifted list; it is sorted if and only if the new key fits, and is then the map without the old key and with the new one; replacing a key by itself always fits |
| BoltNode.Node.Del | gee-bolt/day3-tree/node.go:47-52 | the node stays sorted and loses exactly this key |
| BoltNode.PutKeepsSortedIffFits | gee-bolt/day3-tree/node.go:36-45 | the list with the new pair is sorted if and only if the new key lies strictly between its neighbours |
| BoltNode.PutUpdatesMap | gee-bolt/day3-tree/node.go:36-45 | a put that leaves the node sorted is removal of the old key and update of the new one |
| BoltNode.DelRemoves | gee-bolt/day3-tree/node.go:47-52 | taking a pair out of the sorted list is removal from the map |

## Left out

- The network, HTTP, the gob, JSON and protobuf encodings, reflection, logging and time: the wire is a sequence of header and body frames that may stop arriving, timeouts and cancellations are steps that can come at any moment, a method's answer is an arbitrary function of the call's number, its name and arguments, its text for an unreadable body is one constant.
- RpcNet.ReplyMatchesCall: assumes that all calls name registered methods, because of the lost framing above, and that the timeout message is not empty, which it never is.
- RpcClient.Client.RegisterCall: assumes that the call is not pending already, as each call is made afresh by Go.
- RpcSafety.DoneNeverBlocks: each call has a channel of its own with room for at least one message; a channel that the user shares between calls of Go can be full.
- Wrap-around of the 64-bit sequence number and overflow of the byte count.
- Lru.Cache.Add: the budget is not negative; with a negative one the source's loop does not end.
- Values of the cache are byte strings whose length is their size; ByteView only guards against aliasing.
- Elements of the linked list are references into the list's own memory, so that `next` and `prev` are maps; the methods that the cache uses are modelled, the rest of container/list is not.
- Flights.CanReturnIffChainEnds: requests and responses get through, and no key is cached yet; a request that fails is followed by a local load, and a cached key returns at once. What fn returns is left open here; SingleflightResult and Cluster say it.
- Singleflight.NoDeadlock: fn returns; a panic inside fn leaves the key locked for ever and is not modelled.
- Cluster.Cluster.Get: lookups come one after the other, without the singleflight groups, which Flights has; one cache group whose name needs no escaping; a key has the bytes of its string; the nodes agree on all owners, which Cluster.SamePeersAgree gives; Flights drops this.
- HttpPool.Pool.PickPeer: requires that Set has been called; before that the source dereferences nil.
- The hash function is arbitrary; CRC32 is not part of this model.
- Router.Router.AddRoute: keeps each method's trie as the value that TrieNode.Node is proved to hold; that the tries of different methods share no nodes is not captured.
- Context.Context.Next: a handler is a finite script of Next, Fail, a panic and anything else, or Recovery; handlers that change the context's other fields or start goroutines are not modelled.
- Groups are known by their place in the engine's list instead of by pointer; Static, templates and the debug output are not part of this model.
- Router.Router.Handle: distinct handlers need distinct keys, which Router.KeysDiffer gives for the usual methods and patterns.
- Key and value slices of a bolt node are values, sharing with the caller's buffers is not captured; node.root, pages, meta pages and the memory map are not part of this model.
- NewClient and Dial with their option exchange, the registry and its heartbeat, XClient and Broadcast, the debug page.
- gee-orm, whose claims rest on SQLite and database/sql, and the self-cache and self-rpc variants.
