# Verification of the chat servers

The repository holds two chat servers. The distributed one (`distributed/src`)
is a set of processes that flood joins, says and leaves over a fixed adjacency.
The single one (`server_helpers.h`, `state.c`) keeps its users and channels in a
hand-written linked list and hash table (`adts`). This project models both and
proves what they are for.

## The distributed server

`Protocol` says what each handler makes of one server (the `On..` functions) and
puts the servers, the datagrams in flight and the texts sent into a step machine.
A handler runs under the server's lock, so a step is one handler call; datagrams
arrive in any order. `Users`, `ServerState`, `LocalState` and `HandlerCode` are
the code itself, with its vectors, hash maps and loops, proved to compute those
functions: same new state, every datagram and text of the effect sent once.
`HandlerCode.Serve` puts this together: over any run of packets the code's server
is the protocol's server. `Effects` says of every step, member by member, who is
in which set afterwards and what is sent. `Membership` says when taking a user out by pointer is
safe, which every step that does it requires.

On the step machine, over every run:

* `SayRound`: a say is handled exactly once by every other server of the
  origin's component and its text is sent exactly once to every channel user,
  whatever the delivery order and with the prunes and leaves it causes mixed in.
  The invariant `Flooding` says that a copy is in flight to exactly the unhandled
  servers whose predecessor on the route from the origin has handled the say.
  Afterwards exactly the user-less leaf servers other than the origin have dropped
  the channel.
* `SayFlood`: a say floods for a bounded number of deliveries if and only if no
  cycle of the subscription graph can be reached from its origin. The ids that
  would stop a copy from circulating are never recorded, so on the grid topology
  no say ever drains.
* `Races`: from a settled cluster whose channel members are logged in, several says
  may be in flight together without a server being handed a say for a channel it
  has just dropped if and only if no user-less leaf of a channel can be reached
  from a server that has a client.
* `Overlaps`: then each of them is handled exactly once by every other server of
  its origin's component, whatever else is said meanwhile.
* `Pruning`: prunes keep lists symmetric, forests forests, and remaining members
  connected.
* `JoinFlood`: logged-in joins converge to exactly the servers a joiner is
  connected to, each listing exactly its neighbours. Every delivery of a join, in
  any state, lowers by one the datagrams in flight plus the degrees of the servers
  lacking the channel, so joins always drain; the first join in a connected
  network costs exactly the sum of its degrees.
* `Heartbeat`: one periodic join from every server turns the listing into its
  symmetric closure.
* `Rounds`: over any number of drained rounds of all of these, timeouts of users
  and servers included, on a forest, the next say is handled exactly once by every
  other server of its origin's component; a join round that has begun can always be
  finished.
* `Subscriptions`: at any moment of any run the members of a channel at a server are
  those who joined there and have not left, logged out, timed out or been displaced
  since; a drained say has been sent once to exactly those at the servers of its
  origin's component.
* `Wholeness`: as long as no server is given up on, that component is everybody who
  holds the channel and is connected to the origin at all.
* `Topologies`: the H of `distributed/start_servers.sh` is such a forest; on its
  grid no say on a joined channel ever drains.

`Graphs` and `Sums` hold the graph theory: walks that never turn back are unique
where there is no cycle, and endless where there is one.

## The single server

`Hashing` is the arithmetic of the hash table, `Chains` what its operations do to
the chains as sequences, `HashMap` the table on the heap refining a map.
`LinkedList` is the sentinel ring with its free list, refining a sequence.
`AddressKeys` is the text under which a client's address is filed.

On top of those, and running on their pointers: `UserIndex` is the user list with
its two hash tables over the same user objects, one keyed by name and one by
address text; `ChannelTable` is the hash table of channels, each with a linked
list of names; `ChatServer` is the request handlers. What a handler promises is
said on sets and maps: who is logged in from where, which names each channel
holds, which texts are sent to which addresses. `State.AtRest`, that the three
user structures agree and that every stored channel is filed under its own name,
holds no name twice and is not empty, holds between any two requests, and
`State.Serve` serves any run of them, each reply being the answer to its request.
`ChatHistory` tells members and the receivers of a say from the requests served.

## Where the code differs from what one would expect

* `channel_add_uid` has no caller (`distributed/src/state.cxx:428-434`), so the
  duplicate branch of `handle_s2s_say` is dead. The branch is modelled; the id
  sets stay empty because no handler fills them (`Protocol.RunKeepsWellFormed`).
* `hm_put` without a place for the previous element always adds an entry
  (`adts/hashmap.c:296-303`), which is a map update exactly when the key is new:
  `Chains.PushPlacedIff`.
* A doubling cut off at the maximum capacity halves the tracked load although the
  capacity has less than doubled: `Hashing.GrownLoadExactIff` says exactly when
  the load stays right, `Hashing.NoBoundAtMaximum` that no load bound holds there.
* A second login under a used name or address leaves the evicted user in its
  channels, although users are meant to be taken out of all channels first
  (`distributed/src/state.h:63`). `Membership.LoginKeepsKnownIff` and
  `LocalState.State.CliLogin` say exactly when channel membership stays within the
  logged-in users, `Membership.LogoutSafeIffUnclaimed` exactly when the logout that
  follows erases nobody else's keys.
* Erasing a `UserSet` member by pointer keeps the set's tables in agreement
  exactly under the condition in `Users.RemoveAgreesIff`. Logouts, leaves and user
  timeouts that would break it are not steps of the protocol (`Protocol.SafeAt`);
  nothing else depends on it.
* A join or a leave by a client that is not logged in prints the logged-in users
  (`server_helpers.h:65-70` and `94-99`). When there are none, the array is null
  and the count is never set (`adts/linkedlist.c:329-336`). So these two handlers
  do what they should exactly when somebody is logged in; `ChatServer.FirstRequest`
  is the input on which they fail: any join or leave sent to a new server. The
  inactivity sweep walks the same array (`server_helpers.h:218-231`) and fails
  exactly when nobody is logged in, too: `UserIndexes.UserIndex.ListUsers`,
  `ChatServer.State.NobodyLoggedIn`.
* Two servers that give up on each other's joins are apart for good although both
  still have channel users: `Wholeness.TimeoutsSplit`.

## Model

| member | source | states |
|---|---|---|
| SayRound.ExactlyOnce | distributed/src/handlers.cxx:93-227 | once a say has drained, in any delivery order, every other server of the origin's component handled it once and nobody else did, every channel user in the component got the text once, and it cost one copy per server |
| SayRound.EachHearsOnce | distributed/src/handlers.cxx:93-227 | text by text: each channel user at a server of the component has been sent the text once, and no other text has been sent |
| Subscriptions.MemberAfter | distributed/src/handlers.cxx:40-237 | any step at all puts a client into a channel exactly when it is its own logged-in join, and takes it out exactly when it is its own leave, logout or timeout, or a join under its name or address |
| Subscriptions.MembersAreSubscribers | distributed/src/handlers.cxx:40-237 | at any moment of any run the members are exactly those who joined and have not been taken out since |
| Subscriptions.SubscribersHearOnce | distributed/src/handlers.cxx:93-227 | whatever happened before, a drained say has been sent exactly once to each subscribed client at a server of the origin's component, and no other text has been sent |
| SayRound.NoLostChannel | distributed/src/handlers.cxx:185-237 | at every moment of the flood every datagram in flight can be handled: a say finds its channel, a leave comes from a neighbour |
| SayRound.OnlyLeavesDrop | distributed/src/handlers.cxx:12-37 | after the drained round exactly the user-less leaf servers other than the origin have dropped the channel; the others keep their users and list exactly their old neighbours that stay |
| SayRound.RunFloods | distributed/src/handlers.cxx:185-237 | the flood invariant (copies in flight and handled servers partition the component) is kept by every delivery order |
| SayRound.OpeningFloods | distributed/src/handlers.cxx:93-119 | a client's say on a settled acyclic channel establishes the flood invariant |
| SayFlood.TerminatesIffAcyclic | distributed/src/handlers.cxx:199-216 | there is a bound on the deliveries a say causes if and only if no cycle can be reached from its origin |
| SayFlood.RunSpendsPotential | distributed/src/handlers.cxx:208-225 | each delivery lowers a potential: the degrees and channels of the servers still to be reached plus the datagrams in flight |
| SayFlood.GridNeverDrains | distributed/src/handlers.cxx:199-216 | where every server reached lists at least two others no delivery order ever drains a say |
| Topologies.GridSaysNeverDrain | distributed/start_servers.sh:23-32 | on the grid, once any joins have drained, no say of a client ever drains |
| Topologies.HShapeAcyclic | distributed/start_servers.sh:14-21 | the H is symmetric and has no cycle |
| Topologies.GridSymmetric | distributed/start_servers.sh:23-32 | the grid is symmetric and without loops, so there is such a cluster |
| Topologies.HShapeSayOnce | distributed/start_servers.sh:14-21 | on the H, after any number of rounds, a drained say was handled exactly once by every other server of its component |
| Races.RaceFreeIffNoneAbandoned | distributed/src/handlers.cxx:208-225 | while channel members are logged in, overlapping says never reach a server that lost the channel if and only if no user-less server with one neighbour in a channel can be reached in it from a server that has a client |
| Races.SaysKeepSteady | distributed/src/handlers.cxx:12-37 | then, at every moment, says travel only where a client can be heard, leaves only where none can, and what can be heard is unchanged |
| Races.RaceAlong | distributed/src/handlers.cxx:208-225 | otherwise two says sent one after the other down a walk to such a server leave the second one without a channel |
| Overlaps.OverlappingExactlyOnce | distributed/src/handlers.cxx:185-227 | from a settled cluster where no such server can be reached, among any other says and deliveries, a say with an id of its own is handled exactly once by every other server of its origin's component, if that has no cycle, and by nobody else |
| Overlaps.CopyMeets | distributed/src/handlers.cxx:208-221 | each of those handlings sends the text to the users the channel began with and copies to the servers it listed then, except the sender |
| Membership.LoginKeepsKnownIff | distributed/src/state.cxx:254-257 | channel members stay logged in after a login if and only if nobody else in a channel has the name or the address |
| Membership.LogoutSafeIffUnclaimed | distributed/src/state.cxx:3-17 | the logout following a login erases nobody else's keys if and only if the login evicted no channel member |
| Membership.KnownIsSafe | distributed/src/state.cxx:349-362 | while channel members are logged in every logout, leave and user timeout is safe |
| Membership.RunKeepsKnown | distributed/src/handlers.cxx:40-237 | every run without a login that evicts a channel member keeps channel members logged in |
| Pruning.PruningKeepsForests | distributed/src/handlers.cxx:12-37 | any drained run of says, leaves, logouts and logins keeps lists symmetric and acyclic, and two servers that keep a channel are connected in it exactly when they were |
| Pruning.RunKeepsTidy | distributed/src/handlers.cxx:12-37 | at every step of such a run the only one-sided listings are those a leave in flight will remove |
| Pruning.RunKeepsConnected | distributed/src/state.h:136-138 | a server that keeps the channel is never cut off by the prunes of others |
| JoinFlood.JoinsConverge | distributed/src/handlers.cxx:63-183 | after drained logged-in joins the holders are exactly the servers some joiner is connected to, and each lists exactly its neighbours |
| JoinFlood.JoinRunKeepsAnnounced | distributed/src/state.cxx:364-392 | at every step a holder is listed by each neighbour or its join to that neighbour is in flight |
| JoinFlood.JoinPaysOne | distributed/src/handlers.cxx:173-182 | in any state, one delivery of a join lowers by exactly one the datagrams in flight plus the degrees of the servers lacking the channel |
| JoinFlood.DeliveriesPay | distributed/src/handlers.cxx:173-182 | so over any run of join deliveries on any number of channels the length is exactly what is used up of joins in flight and missing degrees |
| JoinFlood.JoinsDrain | distributed/src/handlers.cxx:165-183 | from any state with only joins in flight every delivery order is bounded and some order drains |
| JoinFlood.FirstJoinCost | distributed/src/handlers.cxx:173-182 | the first join among connected servers ends after exactly the sum of their degrees deliveries, one per server and neighbour, whatever other components hold |
| Heartbeat.HeartbeatSymmetrizes | distributed/src/server.cxx:115-133 | one join from every server, sent and delivered in any order, makes the listing its symmetric closure |
| Rounds.PhasesKeepSettled | distributed/src/handlers.cxx:12-237 | any number of drained quiet and join rounds, with user and server timeouts, on a forest leaves symmetric acyclic subscription graphs |
| Rounds.JoinPhaseCompletes | distributed/src/server.cxx:115-133 | however a join round begins, deliveries and one heartbeat of every server finish it |
| Rounds.EverySayOnce | distributed/src/handlers.cxx:93-227 | after any number of such rounds the next say ends, and once drained was handled, and its text sent to the users, exactly once at every other server of its origin's component |
| Wholeness.EverySayEverywhere | distributed/src/handlers.cxx:93-227 | on a forest, from whole channels, after any rounds without server timeouts, a drained say was handled exactly once by every other server that holds the channel and is connected to the origin, and by nobody else |
| Wholeness.PhasesKeepWhole | distributed/src/state.cxx:364-410 | such rounds keep any two holders of a channel that the adjacency connects connected in the channel |
| Wholeness.TimeoutsSplit | distributed/src/server.cxx:96-113 | two servers that give up on each other stay apart although both have channel users, so server timeouts have to be left out |
| Protocol.RunKeepsWellFormed | distributed/src/state.cxx:364-434 | over every run lists stay within the adjacency, datagrams travel between neighbours, ids are never recorded |
| Protocol.StepKeepsWellFormed | distributed/src/handlers.cxx:40-237 | every single handler keeps that |
| Effects.LoginLaw | distributed/src/state.cxx:26-33 | everybody of other name and address stays, the new user is in, channels are as they were |
| Effects.LogoutUsers | distributed/src/state.cxx:258-268 | exactly the user at the address is logged out |
| Effects.LogoutChannels | distributed/src/state.cxx:349-362 | every channel loses exactly that user, and is kept exactly when somebody else is in it or it lists two servers |
| Effects.LogoutMsgs | distributed/src/handlers.cxx:51-61 | exactly the servers listed in dropped channels are sent a leave |
| Effects.ClientJoinLaw | distributed/src/state.cxx:269-287 | a logged-in client that joins is a member of the channel, new or not, with every former member of other name and address; nothing else changes |
| Effects.ClientLeaveChannel | distributed/src/state.cxx:288-307 | the leaver and nobody else is out, and the channel is kept exactly when it is still needed |
| Effects.ClientSayLaw | distributed/src/handlers.cxx:93-119 | every member is sent the text, every listed server a copy, and nobody else anything |
| Effects.JoinLaw | distributed/src/state.cxx:364-392 | the sender is listed too, the channel's users stay, and the join is passed on exactly when the channel is new |
| Effects.LeaveLaw | distributed/src/state.cxx:393-410 | only the sender is unlisted |
| Effects.SayLaw | distributed/src/handlers.cxx:185-227 | a new say goes to every member and every listed server but the sender; exactly the user-less channels with at most one server are dropped, with a leave to that server |
| Effects.UserTimeoutLaw | distributed/src/server.cxx:135-151 | exactly the idle users are out of the user set and of every channel, and nothing is pruned |
| Effects.ServerTimeoutLaw | distributed/src/server.cxx:96-113 | exactly the silent servers are unlisted |
| Effects.HeartbeatLaw | distributed/src/server.cxx:115-133 | every listed server of every channel is sent a join |
| HandlerCode.Prune | distributed/src/handlers.cxx:12-37 | the collect, announce and delete loops drop exactly the prunable channels and send each of their listed servers one leave |
| HandlerCode.HandleLogout | distributed/src/handlers.cxx:51-61 | the user at the address is out of the user set and of every channel, all others stay; new state and datagrams are those of the protocol's logout |
| HandlerCode.HandleJoin | distributed/src/handlers.cxx:63-78 | a logged-in client is a member afterwards; new state is the protocol's, and every neighbour is sent one join, also for a client that is not logged in |
| HandlerCode.HandleLeave | distributed/src/handlers.cxx:80-91 | the client is no member afterwards; new state and datagrams are those of the protocol's leave, pruning included |
| HandlerCode.HandleSay | distributed/src/handlers.cxx:93-119 | every channel user is sent the text once, every listed server one copy, nothing else changes |
| HandlerCode.HandleS2sJoin | distributed/src/handlers.cxx:165-183 | the sender is listed with a fresh timestamp, and the join is passed on to every neighbour exactly when the channel is new |
| HandlerCode.HandleS2sSay | distributed/src/handlers.cxx:185-227 | copies go to every listed server but the sender, texts to every channel user, then the prunes; a recorded id only causes a leave to the sender |
| HandlerCode.SendJoins | distributed/src/server.cxx:115-133 | one pass sends every listed server of every channel one join |
| HandlerCode.AllBut | distributed/src/handlers.cxx:208-214 | the forwarding loop skips exactly the sender |
| HandlerCode.Broadcast | distributed/src/network.cxx:118-177 | each target is sent the datagram once |
| HandlerCode.Handle | distributed/src/handlers.cxx:40-237 | whatever the packet, its handler leaves the state and sends the datagrams and texts of the protocol's step |
| HandlerCode.Serve | distributed/src/server.cxx:153-169 | over any run of packets that can be handled, the state and everything sent are those of the protocol's steps |
| LocalState.State.CliLogin | distributed/src/state.cxx:254-257 | the user set is the protocol's after a login; where channel members were logged in they stay so exactly when nobody in a channel has this name or address |
| LocalState.State.CliLogout | distributed/src/state.cxx:258-268 | the user at the address leaves the user set and every channel; an unknown address changes nothing |
| LocalState.State.CliJoin | distributed/src/state.cxx:269-287 | the logged-in user is admitted to the channel, which is created when new |
| LocalState.State.CliLeave | distributed/src/state.cxx:288-307 | the user leaves the channel if there is one |
| LocalState.State.RemoveUser | distributed/src/state.cxx:349-362 | every channel and the user set lose exactly this user and all tables still agree |
| LocalState.State.S2sJoin | distributed/src/state.cxx:364-392 | the sender is listed in the channel, which is created when new, and its timestamp there and no other is refreshed; the result tells which |
| LocalState.State.S2sLeave | distributed/src/state.cxx:393-410 | the sender is no longer listed; an unknown channel changes nothing |
| LocalState.State.LookupIsLogin | distributed/src/state.cxx:42-48 | what the address map finds is the one logged-in user at that address |
| LocalState.State.SweepUsers | distributed/src/server.cxx:135-151 | walking a copy of the list while removing leaves exactly the users idle for at most 120 seconds, in the user set and in every channel |
| LocalState.State.SweepIsSafe | distributed/src/server.cxx:135-151 | while channel members are logged in, a sweep can be done at any time |
| LocalState.State.SweepServers | distributed/src/server.cxx:96-113 | in every channel exactly the servers heard from within 120 seconds on the 32-bit clock stay, also when it has come round, as the protocol's timeout step |
| Users.RemoveAgreesIff | distributed/src/state.cxx:3-17 | erasing by pointer keeps vector and maps in agreement if and only if the user is a member or neither its name nor its address is in use |
| ServerState.UserSet.RemoveUser | distributed/src/state.cxx:3-17 | the loop erases the first equal user from the vector and the keys from both maps; a null pointer changes nothing |
| ServerState.UserSet.RemoveByName | distributed/src/state.cxx:49-55 | exactly the holder of the name goes and the tables agree |
| ServerState.UserSet.RemoveByAddr | distributed/src/state.cxx:56-62 | exactly the holder of the address goes and the tables agree |
| ServerState.UserSet.AddUser | distributed/src/state.cxx:26-33 | exactly the holders of the name and of the address are evicted, the user is added, the tables agree |
| ServerState.UserSet.GetMember | distributed/src/state.cxx:35-48 | both lookups find a member with the key, and nothing exactly when there is none |
| ServerState.ServerSet.GetByScan | distributed/src/state.cxx:106-114 | the linear scan finds a server exactly when the map does |
| ServerState.ServerSet.RemoveServer | distributed/src/state.cxx:78-89 | vector and map lose the server and still agree |
| ServerState.ServerSet.AddServer | distributed/src/state.cxx:91-97 | the server ends up once, last in the vector, and the map agrees |
| ServerState.Channel.AddUser | distributed/src/state.cxx:148-152 | the channel's users are evicted and extended as in a user set |
| ServerState.Channel.AddServer | distributed/src/state.cxx:160-164 | the server is listed and has a fresh timestamp; timestamps exist for exactly the listed servers |
| ServerState.Channel.RemoveServer | distributed/src/state.cxx:165-168 | the server and its timestamp go together |
| ServerState.Channel.ServerHeartbeat | distributed/src/state.cxx:172-178 | only a listed server's timestamp is refreshed |
| ServerState.ElapsedMeans | distributed/src/state.cxx:184 | the 32-bit difference is the time passed, also when the clock has come round |
| ServerState.InTimeMeans | distributed/src/state.cxx:180-189 | the servers heard from in time are those within 120 seconds |
| ServerState.Channel.DeadServers | distributed/src/state.cxx:180-189 | every lookup succeeds and the result is exactly the servers last heard from longer ago than the timeout |
| ServerState.Channel.ShouldPruneIffPrunable | distributed/src/state.h:136-138 | the test on vector sizes is the protocol's test on sets |
| ServerState.ChannelSet.AddChannel | distributed/src/state.cxx:191-197 | vector and map gain the channel unless the name is taken |
| ServerState.ChannelSet.RemoveChannel | distributed/src/state.cxx:211-222 | vector and map lose exactly the channel with this name |
| Hashing.ComputeHash | adts/hashmap.c:60-68 | the loop computes the hash |
| Hashing.HashIsPolynomial | adts/hashmap.c:60-68 | reducing at every character gives the base-seven number of the key modulo the number of buckets |
| Hashing.HashSplits | adts/hashmap.c:60-68 | the hash for n buckets is that for 2n modulo n, so a bucket splits in two |
| Hashing.HashFits | adts/hashmap.c:37-66 | no partial result leaves 32 bits for up to 2^27 buckets and seven-bit characters |
| Hashing.PolynomialStep | adts/hashmap.c:60-68 | the number of a key is seven times that of all but the last character, plus that character |
| Hashing.GrowthLaw | adts/hashmap.c:225-351 | the table grows only in a put that finds more than a hundred changes and too high a load, then doubles up to the maximum; sizes and changes are counted as specified |
| Hashing.LoadBound | adts/hashmap.c:225-351 | after any operations, while the capacity is below the maximum, the tracked load is size / capacity and size is at most (factor + 101 / initial) * capacity |
| Hashing.LoadStaysExact | adts/hashmap.c:225-257 | from an initial capacity that doubles to the maximum exactly, as 32 does, the tracked load is size / capacity for ever, also at the maximum |
| HashMaps.HashMap.LoadIsBounded | adts/hashmap.c:225-351 | every table below the maximum capacity is within the bound |
| UserIndexes.UserIndex.TablesSpread | state.c:19-21 | both user tables of the server are within it, whatever was requested |
| Hashing.ChatTableBound | state.c:19-21 | for the server's tables 32 * size is at most 117 * capacity |
| Hashing.GrownLoadExactIff | adts/hashmap.c:230-256 | growing keeps the load exact if and only if the capacity really doubles or the table is empty |
| Hashing.NoBoundAtMaximum | adts/hashmap.c:231-234 | at the maximum capacity every size can be reached |
| Chains.PlacedRehashed | adts/hashmap.c:243-250 | relinking loses no entry and puts each where its key now hashes to |
| Chains.DoublingSplits | adts/hashmap.c:243-250 | after an exact doubling the entries of bucket i are in buckets i and i + n only |
| Chains.FlatLength | adts/hashmap.c:140-158 | the chains together hold as many entries as there are keys, each key once |
| Chains.PushPlacedIff | adts/hashmap.c:262-306 | pushing an entry leaves one entry per key exactly when the key was new |
| HashMaps.HashMap.FindKey | adts/hashmap.c:115-126 | the chain walk finds the key's entry if and only if the key is in the table |
| HashMaps.HashMap.Get | adts/hashmap.c:169-181 | lookup in the map |
| HashMaps.HashMap.Resize | adts/hashmap.c:225-257 | no mapping changes, the bookkeeping grows as specified |
| HashMaps.HashMap.InsertEntry | adts/hashmap.c:262-282 | the map gains the new key, size, load and changes follow |
| HashMaps.HashMap.Put | adts/hashmap.c:284-306 | map update, with the previous element returned |
| HashMaps.HashMap.PutUnique | adts/hashmap.c:308-324 | map update exactly when the key is absent |
| HashMaps.HashMap.Remove | adts/hashmap.c:326-351 | map removal, with the element returned; an absent key changes nothing |
| HashMaps.HashMap.EntryArray | adts/hashmap.c:140-167 | the array has exactly size cells and holds the chains in bucket order; null exactly for an empty table |
| HashMaps.HashMap.Clear | adts/hashmap.c:74-107 | every entry is released once in walk order and the table is empty |
| LinkedLists.Link | adts/linkedlist.c:119-124 | linking gives the ring with the node after the given position, also when both neighbours are the sentinel |
| LinkedLists.Unlink | adts/linkedlist.c:228-231 | unlinking gives the ring without the node |
| LinkedLists.NextPrevInverse | adts/linkedlist.c:119-124 | going on and back from any node returns to it |
| LinkedLists.AccountedApart | adts/linkedlist.c:58-80 | ring and free list are disjoint, repeat no node and together hold every node allocated |
| LinkedLists.LinkedList.GetEntry | adts/linkedlist.c:64-80 | a spare node is handed out; exactly when there is none 128 new ones are allocated first |
| LinkedLists.LinkedList.Insert | adts/linkedlist.c:130-147 | insertion into the sequence at the index, refused beyond the end; nodes grow only on a refill |
| LinkedLists.LinkedList.AddFirst | adts/linkedlist.c:149-161 | the sequence gains a first element |
| LinkedLists.LinkedList.AddLast | adts/linkedlist.c:163-175 | the sequence gains a last element |
| LinkedLists.LinkedList.Get | adts/linkedlist.c:185-199 | the element at the index, if any |
| LinkedLists.LinkedList.RemoveAt | adts/linkedlist.c:233-250 | the sequence without the index, the element returned, no node lost |
| LinkedLists.LinkedList.RemoveFirst | adts/linkedlist.c:252-265 | the sequence without its first element; an empty list is refused |
| LinkedLists.LinkedList.RemoveLast | adts/linkedlist.c:267-280 | the sequence without its last element; an empty list is refused |
| LinkedLists.LinkedList.Set | adts/linkedlist.c:282-297 | the sequence with the index replaced, the previous element returned |
| LinkedLists.LinkedList.ToArray | adts/linkedlist.c:314-336 | the elements in order, null exactly when there are none |
| LinkedLists.LinkedList.Clear | adts/linkedlist.c:86-183 | the free function sees the elements in order, the list is empty and every node is kept |
| LinkedLists.LinkedList.Destroy | adts/linkedlist.c:99-112 | every node ever allocated is released exactly once |
| LinkedLists.LinkedList.Add | adts/linkedlist.c:126-128 | the sequence gains a last element; the list's objects grow by new ones only |
| UserIndexes.UserIndex.IndexOfUser | state.c:80-90 | walking the list gives the first position of a user with this name and address, or -1 |
| UserIndexes.KeyedLookup | state.c:295-314 | a lookup by key text finds what is filed under the address, and nothing exactly when nothing is |
| UserIndexes.KeyedRemove | state.c:181-187 | removing by key text removes that address and no other |
| UserIndexes.UserIndex.RemoveByName | state.c:165-179 | exactly the holder of the name leaves the list and both tables, which still agree |
| UserIndexes.UserIndex.RemoveByIp | state.c:181-195 | exactly the holder of the address leaves the list and both tables, which still agree |
| UserIndexes.UserIndex.AddUser | state.c:201-219 | a login evicts exactly the previous holders of the name and of the address and adds one new user; everybody else stays, list and both tables agree |
| UserIndexes.UserIndex.FindByIp | state.c:307-313 | the user filed under the address, null exactly when there is none |
| UserIndexes.UserIndex.FindByName | state.c:295-305 | the user filed under the name, null exactly when there is none |
| UserIndexes.UserIndex.RemoveInactive | server_helpers.h:218-231 | removing while walking a copy of the list leaves exactly the users within the limit |
| Users.Forgotten | state.c:165-195 | taking one user out of the list and both indexes takes out exactly the holder of its name, who is the holder of its address |
| ChannelTables.MemberIndex | state.c:80-90 | walking the list gives the first position of the name, or -1 |
| ChannelTables.ChannelTable.AddChannel | state.c:237-250 | an empty channel is stored under its name unless there is one |
| ChannelTables.ChannelTable.ChannelAddUser | state.c:252-260 | the name is a member once, the channel is created when new, no other channel changes |
| ChannelTables.ChannelTable.ChannelRemoveUser | state.c:262-272 | the name is no member; an unknown channel changes nothing |
| ChannelTables.ChannelTable.RemoveChannelIfEmpty | state.c:226-293 | the record goes, and every node of its list is released once, exactly when it has no member |
| ChatServer.State.HandleLogin | server_helpers.h:21-33 | the users are those of other name and address, with their timestamps, and one new user with a new timestamp; no channel is touched or left empty |
| ChatServer.State.HandleLogout | server_helpers.h:36-50 | exactly the user at the address is logged out and no channel is touched |
| ChatServer.State.Sender | state.c:341-362 | the lookup by address and then by name refreshes the timestamp of the user at the address and of nobody else |
| ChatServer.State.HandleJoin | server_helpers.h:52-79 | exactly the name logged in at the address becomes a member of exactly this channel; otherwise an error, no change, and all logged-in users printed; only the sender's timestamp moves |
| ChatServer.State.HandleLeave | server_helpers.h:81-111 | exactly that name is out of exactly this channel, and a channel is stored exactly when it has a member; otherwise an error, no change, and all logged-in users printed |
| ChatServer.State.HandleSay | server_helpers.h:113-159 | one text to the current address of each logged-in member and to nobody else; the errors in their order; the null-array branch is unreachable |
| ChatServer.State.HandleWho | server_helpers.h:180-203 | each member's name once, or that there is no such channel; the null-array branch is unreachable |
| ChatServer.State.RemoveInactive | server_helpers.h:218-231 | exactly the users idle for at most 120 seconds stay, indexes agree, no channel is touched |
| ChatServer.State.Handle | server.c:47-69 | any request changes who is logged in and who is in which channel as it says, and is given its own answer |
| ChatServer.State.Serve | server.c:72-109 | over any run of requests the server is at rest after each, who is logged in and who is in which channel is as the requests say, and reply i is the answer to request i in the roster reached after the first i |
| ChatHistory.MemberAfter | server_helpers.h:52-111 | any request puts a name into a channel exactly when it is a join by a client of that name, and takes it out exactly when it is a leave by one |
| ChatHistory.MembersAreSubscribers | server_helpers.h:52-111 | after any run the members are exactly the names that joined and have not left since, whoever logged in or out |
| ChatHistory.SayAnswered | server_helpers.h:113-159 | a say is answered by one text to each address of a logged-in member and no other, or by the error that applies |
| ChatHistory.SayReachesSubscribers | server_helpers.h:113-159 | the say after any run sends one text to each address at which a subscribed name is then logged in, and no other |
| ChatHistory.WhoAnswered | server_helpers.h:180-203 | a who is answered by each member's name once, or that there is no such channel |
| UserIndexes.UserIndex.ListUsers | state.c:221-224 | the array of users is null if and only if the list is empty |
| ChatServer.State.NobodyLoggedIn | server_helpers.h:63-70 | the list is empty if and only if nobody is logged in, so then every client is unknown |
| ChatServer.FirstRequest | server_helpers.h:63-70 | on a new server every client is unknown and the array of users to print is null |
| ChatServer.OneMoreName | server_helpers.h:147-153 | looking one more member up adds exactly one delivery, to an address not served yet, when it is logged in, and none otherwise |
| AddressKeys.KeyFits | state.c:118-134 | every key fits 21 characters |
| AddressKeys.KeyInjective | state.c:118-134 | two addresses with the same key are the same address |
| AddressKeys.ExtractIp | state.c:137-144 | the ip is read back from the key |
| AddressKeys.SwapBytesMeans | state.c:129 | `ntohs` exchanges the two bytes |
| AddressKeys.NoLeadingZero | state.c:129 | numbers are printed without leading zeros |
| AddressKeys.ExtractPort | state.c:146-160 | the printed number, the port with its bytes swapped, is read back from the key |
| AddressKeys.NumberOfDecimal | state.c:127-159 | reading a printed number gives the number |

## Left out

- Sockets, hostname resolution, packet layouts and size checks: sending appends to what a handler returns.
- `client.c`, `raw.c` and logging: no effect on the state.
- `adts/iterator.c`: an index over the arrays that the containers build.
- `hm_keyArray`, `ll_getFirst`, `ll_getLast`, `containsKey` of channels, list requests and keep-alives: they would only add easy members.
- Threads and mutexes: every handler and every pass of a timer loop is one step; the clock is read once per pass.
- Failing allocation: `malloc`, `strdup` and `new` succeed.
- The memory of evicted users and deleted channels: an object that is no longer referred to is not reachable in the model.
- Lost or duplicated datagrams: delivery is reliable, in any order.
- Message ids: an id is a parameter of a say, its randomness is not modelled, since no id is ever stored.
- Overlapping rounds: the say, prune and join theorems are stated for rounds that drain before the next kind begins, because a say overtaking a prune or a join can reach a server without the channel. `Races.RaceFreeIffNoneAbandoned` says exactly when says may overlap, `Overlaps.OverlappingExactlyOnce` what they then do.
- Joins by clients that are not logged in: `HandlerCode.HandleJoin` models them, the convergence theorems assume logged-in joiners, because such a join is announced by a server that does not hold the channel.
- HandlerCode.HandleS2sJoin: requires a known sender, as does HandlerCode.HandleSay a logged-in client and an existing channel, because the code follows a null pointer otherwise (`distributed/src/state.cxx:366-371`, `distributed/src/handlers.cxx:97-113`).
- LocalState.State.CliLogout: requires that no channel holds another user of the same name or address, because the code would erase that user's keys (`Users.RemoveAgreesIff`); `Membership.KnownIsSafe` says where this always holds, `Membership.LogoutSafeIffUnclaimed` which login ends it.
- LocalState.State.CliLeave: requires the same of the channel that is left.
- LocalState.State.RemoveUser: requires the same of every channel.
- LocalState.State.SweepUsers: requires the same of every idle user.
- HandlerCode.HandleLogout: requires the same as the logout it does.
- HandlerCode.HandleLeave: requires the same as the leave it does.
- ServerState.UserSet.AddUser: user, server and channel sets are values that a method returns changed, because in the code they are members by value of their owner; users and channels are objects.
- Hashing.LoadBound: the load is an exact real; for capacities that are powers of two the doubles are exact too.
- HashMaps.HashMap.Put: requires a place for the previous element or a new key, the condition that `Chains.PushPlacedIff` shows to be necessary.
- ChatServer.State.RemoveInactive: requires a non-empty user list, because the code otherwise loops to a count that was never set; so do UserIndexes.UserIndex.RemoveInactive, ChatServer.State.HandleJoin and ChatServer.State.HandleLeave.
- ChatServer.State.HandleLogin: requires, like the other handlers, an address whose text is a dotted quad and whose port has sixteen bits, which is what `inet_ntoa` and a port field give.
- AddressKeys.ExtractPort: reads the digits as terminated; the C buffer is not.
- AddressKeys.Key: an ip longer than fifteen characters, which no dotted quad is, would be cut.
