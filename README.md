# consensus: a model of the election simulator

The repository simulates a small cluster (three processes) that elects a
shared "frequency" through an epoch-based vote. The cluster runs over a
network whose faults an operator controls. Each process is an actor with:

- an epoch,
- an adopted frequency and the epoch of that frequency,
- the epoch of its last vote,
- an optional candidacy (`Election`),
- an inbox,
- a row of the fault matrix: lag and packet loss towards every process.

The protocol works like this:

- A process with no frequency, or one forced by the operator, starts an election once its deadline passes. It moves to the next epoch, votes for itself and sends `elect_me` to every peer.
- A peer grants its vote (`you_have_my_vote`) when all of these hold:
  - its epoch is not ahead of the candidate's;
  - it has not yet voted in that epoch;
  - it has seen no newer frequency change.
- Once a candidate counts a majority of votes, it adopts the proposed frequency and sends it to every peer as a `heartbeat`.
- Any message with a newer epoch moves the receiver's epoch forward.

A router (`Mailbox`) takes every outbound message. It drops the message with the probability of the link's packet loss. Otherwise it holds the message for the link's lag, or hands it straight to the recipient.

Three administrative handlers change the fault matrix:

- The split handler parses two comma-separated id lists and cuts every left-right link to 100% loss.
- The heal handler resets lag and loss to zero everywhere.
- The lag handler gives every link of one process a random lag of 10 to 109 seconds.

A ledger of election records keeps the messages each election sent and the replies it received.

The model has five modules:

- `Protocol` (`protocol.dfy`) holds the process class, its message handling, the election trigger, the broadcasts and the router. A ghost list of the epochs a process voted in carries the invariant that a process votes at most once per epoch.
- `NetworkAdmin` (`network_admin.dfy`) holds the split, heal and lag handlers. They work over the processes' `lag` and `packetloss` arrays. Each is proved against a specification on the fault matrix seen as a sequence of rows.
- `History` (`history.dfy`) holds the ledger and its records.
- `GoText` (`gotext.dfy`) models the two Go library calls the split and lag handlers parse their input with: `strings.Split(s, ",")` and `strconv.Atoi`.
- `Wrappers` (`wrappers.dfy`) holds `Option`.

The clock, the random draws and the event a `select` statement wakes up on are parameters.

## Model

| member | source | states |
|---|---|---|
| GoText.SplitPieces | server/server.go:117-118 | splitting on commas gives one piece more than there are commas, and no piece holds a comma |
| GoText.JoinSplit | server/server.go:117-118 | joining the pieces of a split with commas gives back the original text |
| GoText.SplitJoin | server/server.go:117-118 | splitting a comma-join of one or more comma-free pieces gives back exactly those pieces |
| GoText.AtoiResult | server/server.go:135 | Atoi's results: an int64 on success, starting with a digit or a sign; zero on a syntax error; the int64 bound on the sign's side on a range error |
| GoText.AtoiItoa | server/server.go:147 | Atoi reads back every int64 that Itoa prints, without error |
| Protocol.NetworkState.Healthy | server/algo.go:65-70 | a new fault row has zero lag and zero loss towards each of the n processes, in two fresh arrays that are distinct from each other |
| Protocol.PeersBelow | server/algo.go:207-215 | the ids visited below n, skipping the process itself: n - 1 of them when it is below n, all inside the cluster |
| Protocol.PeersBelowExcludeSelf | server/algo.go:208-211 | the broadcast loops never address the process itself |
| Protocol.PeersBelowIncreasing | server/algo.go:208 | the broadcast loops visit ids in strictly increasing order, so no peer twice |
| Protocol.PeersBelowComplete | server/algo.go:208-214 | every other id of the cluster is visited |
| Protocol.BroadcastAt | server/algo.go:230-242 | message k of a broadcast is addressed to peer k and stamped with the sender's epoch and its lag and loss towards that peer |
| Protocol.Process.VoteKeepsValid | server/algo.go:170-172 | a vote cast in an epoch later than the last vote keeps the vote epochs strictly increasing |
| Protocol.Process.NewProcess | server/algo.go:80-99 | epoch 0, frequency -1, no vote, no candidacy, a healthy fault row, the first election due now for process 0 and one minute later for the others; its lag and loss arrays are fresh and distinct; the vote invariant holds |
| Protocol.Process.NewMessage | server/algo.go:245-253 | a message from this process to `to` carries its epoch and its own lag and loss towards `to`; every other field is zero |
| Protocol.Process.HandleMessage | server/algo.go:139-195 | the epoch becomes the larger of the two; the message kind then selects heartbeat adoption, a vote grant or a vote count, and any other kind changes nothing more; the at-most-one-vote-per-epoch invariant is kept |
| Protocol.Process.HandleHeartbeat | server/algo.go:146-156 | a heartbeat is adopted exactly when its frequency epoch is newer than the process's; nothing else changes |
| Protocol.Process.HandleElectMe | server/algo.go:157-177 | the vote is granted, recorded and replied to the requester exactly when the epoch, the vote already cast and the frequency epoch allow it; otherwise nothing changes; the invariant is kept |
| Protocol.Process.HandleVote | server/algo.go:178-191 | a stale vote changes nothing; a current one adds one to the candidacy's count, and a majority adopts its frequency and broadcasts it to every peer |
| Protocol.Process.SendUpdate | server/algo.go:197-205 | exactly one heartbeat carrying the adopted frequency is appended to the outbox, addressed to `to` |
| Protocol.Process.PropagateFrequency | server/algo.go:207-215 | the outbox grows by one heartbeat per peer, in id order, and by nothing else |
| Protocol.Process.ElectMe | server/algo.go:217-243 | the epoch goes up by one; the process votes for itself in it; the candidacy starts with one vote out of NumProcesses; NumProcesses - 1 elect_me requests go out, one per peer; the invariant is kept |
| Protocol.Process.RequestVotes | server/algo.go:230-242 | the outbox grows by one elect_me request per peer, in id order, each carrying the candidacy's frequency and the process's frequency epoch |
| Protocol.Process.SendElectMe | server/algo.go:235-241 | exactly one elect_me request is appended, addressed to `to` |
| Protocol.Process.ElectionTrigger | server/algo.go:105-118 | an election starts exactly when the process has no frequency or was forced, and the clock is past its deadline; the next deadline is 10 to 19 seconds after the second clock reading and the force flag is cleared; with no election nothing changes |
| Protocol.Process.Iterate | server/algo.go:124-137 | an inbox message is removed and handled; a tick sends one heartbeat to the drawn peer; a force command sets only the force flag, and only when it carries an election value. No event changes the deadline, and only a force command changes the force flag; these are the two fields the next election trigger reads |
| Protocol.Process.Receive | server/algo.go:266-272 | the message is appended to the inbox |
| Protocol.VoteOncePerEpoch | server/algo.go:157-177 | two vote requests for the same epoch add at most one vote and at most one reply |
| Protocol.RouteOf | server/algo.go:257-272 | a message is dropped exactly when the draw falls below its loss; with no loss it is never dropped, with 100% loss always; it is delayed exactly when it passes the draw and has positive lag |
| Protocol.DeliveredToAddressed | server/algo.go:262-272 | every message handed straight to a process was addressed to it, has no lag and is one of the arrivals |
| Protocol.InFlightLagged | server/algo.go:262-268 | every message held back has a positive lag and is one of the arrivals |
| Protocol.FullLossDeliversNothing | server/algo.go:258-261 | over links at 100% loss nothing is delivered or held, whatever the draws |
| Protocol.HealthyLinksDeliverAll | server/algo.go:255-273 | over links with no loss and no lag nothing is held in flight, and every process receives at once exactly the messages addressed to it, in arrival order, whatever the mix of recipients |
| Protocol.Mailbox | server/algo.go:255-273 | for the first NumMessages arrivals, each inbox grows by exactly the messages routed straight to it, in order, and the lagged ones are returned; no other process field changes |
| NetworkAdmin.NewCluster | server/algo.go:277-281 | the processes built with NewProcess for ids 0, 1, 2 form a cluster the handlers accept. Each process, its fault row and both arrays are newly allocated, so a caller may then run the handlers on them. Each has its own two arrays, shared with no other process. Every process starts in NewProcess's state (epoch 0, frequency -1, no vote, no candidacy, empty queues, its first deadline) and keeps the vote invariant, and the whole fault matrix is zero |
| NetworkAdmin.SetLoss | server/server.go:160 | one store sets exactly one entry of the loss matrix; the lag arrays are untouched |
| NetworkAdmin.SetLag | server/server.go:85 | one store sets exactly one entry of the lag matrix; the loss arrays are untouched |
| NetworkAdmin.MarkedAt | server/server.go:158-163 | after the loops mark a run of links, an entry has the marked value exactly when one of those links joins its two ends, and keeps its old value otherwise |
| NetworkAdmin.PairsExactly | server/server.go:158-159 | the split loops visit the link (a, b) exactly when a is a left id and b a right id |
| NetworkAdmin.SplitCutsExactly | server/server.go:158-163 | after a completed split the loss between a and b is 100 exactly when one is a left id and the other a right id; every other entry keeps its value |
| NetworkAdmin.CutLink | server/server.go:160-161 | one pass of the split loops sets the loss to 100 in both directions of the link and touches nothing else |
| NetworkAdmin.FirstUnparsableShape | server/server.go:134-144 | every piece before the first unparsable one parses, and that one does not |
| NetworkAdmin.FirstStrayShape | server/server.go:158-162 | every link before the first out-of-cluster link is inside the cluster, and that one is not |
| NetworkAdmin.ValuesAt | server/server.go:134-135 | entry i of the parsed values is what Atoi returned for piece i |
| NetworkAdmin.ParsedIdsAt | server/server.go:130-144 | entry i of an id slice after a parse loop is piece i's Atoi value up to and including the first failing piece, and zero after it |
| NetworkAdmin.ParseIds | server/server.go:134-144 | the loop leaves the slice described by ParsedIds, and reports success exactly when every piece parses |
| NetworkAdmin.ParseForm | server/server.go:117-156 | parsing the form never changes the split flag |
| NetworkAdmin.ParseFormAccepts | server/server.go:117-156 | the request passes parsing exactly when the two lists have one piece per process between them and every piece parses; it is refused with the count error exactly when the count is wrong; once accepted, the slices hold the parsed ids in order |
| NetworkAdmin.ParseSides | server/server.go:117-156 | the count check and the two parse loops give the refusal and the variables that ParseForm describes |
| NetworkAdmin.NetworkSplit | server/server.go:104-167 | a refused request changes no loss entry. An accepted one cuts the left-right links in loop order; it sets `split` and redirects when every id is in the cluster. An out-of-cluster id instead panics, after the stores before it and before any store of its own. The lag matrix never changes |
| NetworkAdmin.Partition | server/server.go:158-163 | the loss matrix ends as the old one with the left-right links cut in loop order, up to the first link that leaves the cluster; it reports whether there was none |
| NetworkAdmin.CutRow | server/server.go:159-162 | the inner loop cuts the links from one left id to each right id, which are the next run of the whole split, or stops at the first out-of-cluster one |
| NetworkAdmin.CutNext | server/server.go:160-161 | one link of the split is cut, or the split stops at it when it leaves the cluster |
| NetworkAdmin.MarkedEveryone | server/server.go:170-177 | marking every ordered pair of processes leaves every entry of any square matrix at the marked value |
| NetworkAdmin.HealIdempotent | server/server.go:169-180 | healing an already healed matrix changes nothing |
| NetworkAdmin.HealLink | server/server.go:172-175 | one pass of the heal loops zeroes lag and loss in both directions of the link |
| NetworkAdmin.HealRow | server/server.go:171-176 | the inner heal loop zeroes the links from one process to every process, the next run of the whole heal |
| NetworkAdmin.HealNext | server/server.go:172-175 | one link of the heal is zeroed in both matrices |
| NetworkAdmin.HealNetwork | server/server.go:169-180 | afterwards every lag and every loss entry of the cluster is zero |
| NetworkAdmin.LagOf | server/server.go:85-86 | a random lag is a whole number of seconds from 10 to 109 |
| NetworkAdmin.SpreadAt | server/server.go:81-87 | after the lag loop, p's lag to every other process and every other process's lag to p come from fresh draws; p's own entry and every entry not involving p are as before |
| NetworkAdmin.LagHandler | server/server.go:68-91 | the key is read with Atoi, ignoring its error; an id in the cluster gets fresh lags on all its links and a redirect; an id outside it panics before any store; packet loss never changes |
| History.ElectionHistory.constructor | server/history.go:45-52 | a new record has its id, elector and frequency, no messages, and is not successful |
| History.ElectionHistory.Sent | server/history.go:59-64 | the message becomes the last sent message; nothing else in the record changes |
| History.ElectionHistory.ReceivedUnsuccessful | server/history.go:66-74 | one reply is appended, marked unsuccessful, with the receiver's snapshot; the receiver is unchanged |
| History.ElectionHistory.ReceivedSuccessful | server/history.go:76-84 | one reply is appended, marked successful, with the receiver's snapshot; the receiver is unchanged |
| History.Ledger.constructor | server/history.go:37-39 | the ledger starts with counter 0 and no records |
| History.Ledger.NewElection | server/history.go:41-57 | a fresh empty record numbered with the counter is appended, and the counter goes up by one; a ledger whose record ids equal their positions keeps that property |
| History.Ledger.IdsIncrease | server/history.go:37-57 | in such a ledger the record ids strictly increase along the list, so no two records share an id |

## Left out

- Concurrency is not modelled. This covers goroutines, the `select` in `Iterate`, the channels and the ledger's mutexes. Each process's outbound channel is its `outbox` sequence, and the router's channel is the `arrivals` sequence. The operations run one at a time.
- The router's delayed delivery is not modelled. In the source a goroutine sleeps for the lag and then sends the message. `Protocol.Mailbox` returns those messages as the in-flight list instead.
- The clock and the random source are parameters:
  - the two clock readings `now` and `later`, the jitter and the candidate's frequency draw in `Protocol.Process.ElectionTrigger`;
  - the drawn peer of a tick in `Protocol.Process.Iterate`;
  - the loss draws in `Protocol.Mailbox`;
  - the lag draws in `NetworkAdmin.LagHandler`.
- `Run`, `Spawn`, `Play` and `Ticker` are not modelled, because they are the scheduling around the modelled steps. One pass of `Run`'s loop is `ElectionTrigger` followed by `Iterate`. Of `Play`, only the loop that builds the processes is modelled, as `NetworkAdmin.NewCluster`. Its goroutines and the forced election after five seconds are not modelled, and neither is its `/lag` registration: that registration passes a three-argument handler where a two-argument one is expected.
- Nothing about the HTTP layer is modelled, since it is presentation and transport. This covers:
  - `RootHandler`, `ElectionHandler`, `templateMap` and `DisplayElectionHistory`;
  - the form-parsing error (status 500) of each handler;
  - the error texts;
  - `heatMap` and `toCsv`, which write a file and run an external program.

  Responses are the values of `NetworkAdmin.Response`.
- Logging (`fmt.Printf`) is not modelled.
- The root `server.go` and `voting.go` are not part of this model.
- The `lag` and `packetloss` fields of `Force` are declared in `Protocol.Force` and never read, as in the source.
- The inbox capacity of 10 is not modelled; the inbox grows without bound. The blocking of a full inbox is not modelled either.
- `Protocol.Mailbox` routes min(|arrivals|, NumMessages) messages. The source blocks until NumMessages have arrived; a shorter `arrivals` stands for a router still waiting.
- `Protocol.Mailbox` requires every message among the first NumMessages arrivals that passes the loss draw to be addressed to a process of the cluster. Go panics on the index otherwise. Later arrivals are never read.
- `Protocol.Process.HandleMessage` requires `CanHandle`. The source panics in two cases: a vote it grants goes to an id outside the cluster, or a current vote arrives with no candidacy (a nil dereference). The panic paths are not modelled.
- `Protocol.Process.Iterate` inherits the same requirement for an inbox message.
- `Protocol.Process.ElectMe` does not model int64 wrap-around of the epoch, because the epoch starts at 0 and grows by one per election. The same holds for `lastVoteEpoch`, the vote count and the deadline arithmetic on `time.Time`.
- `NetworkAdmin.LagHandler` handles a form with one key. The source loops over every key of the form in Go's unspecified map order, and its comment expects one key.
- `NetworkAdmin.NetworkSplit` returns the package-level variables as a value (`SplitVars`) rather than assigning globals.
- `History.Snapshot` has no contract. It copies four fields of the process, and the source promises nothing more about it.

In these places the code does less than its names suggest, and the model follows the code:

- The split handler checks only that the two lists have one piece per process between them. It does not check that they cover every process exactly once. `NetworkAdmin.ParseFormAccepts` states the check the code makes.
- A duplicated or missing id is accepted. An id outside the cluster panics partway through the cuts, after some stores; it is not refused before any change.
- `ElectMe` opens no ledger record. Nothing in the core calls `NewElection`, `Sent` or the `Received…` operations, so the ledger is modelled as the API it is.
- No operation marks a record successful.
- A successful candidacy is never cleared. `Election` keeps its last value and keeps counting later votes of the same epoch.
- The lag handler ignores Atoi's error, so a non-numeric key configures process 0.
