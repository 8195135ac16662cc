# Notary node model

A Dafny model of the notary node of the attendance tracking system
(`notary/notary-server/server.js`). A notary node keeps a hash-linked chain of
attendance blocks, a root index from session id to the block that sealed the session,
a queue of attendance proofs per open session, a list of peer connections, and the
bookkeeping of the distributed check of an attendance proof: the votes received so far
and the HTTP request waiting for its answer, both keyed by the proof alone.

Modules:

- `Ledger` (ledger.dfy): blocks, the hashed preimage, the genesis block, block creation,
  the successor rule, well-formed ledgers, and the index ordering used when a peer's
  chain is adopted.
- `RootIndex` (root_index.dfy): the root table records, the map built from them, and the
  truthiness test the program applies to a looked-up block index.
- `Peers` (peers.dfy): peer messages, `send` with its splice on failure, and `broadcast`
  as an iteration over a list that failed sends shrink.
- `Verification` (verification.dfy): the lookup of a proof in the local chain and the
  majority rule.
- `NodeSpec` (node_spec.dfy): the node's state as a value, one transition function per
  handler (HTTP routes, peer messages, the verification timer, connection events), and
  the lemmas about them.
- `NotaryNode` (node.dfy): class `Node`, whose fields are the program's globals and whose
  methods update them in place. Each method is proved to perform the transition of the
  same name in `NodeSpec`.

SHA-256 is a parameter (`Sha256 = string -> string`) of which nothing is assumed. The
string it hashes is modelled exactly: JavaScript's `+` turns the index and timestamp into
decimal text and the proof list into its comma-joined text. The clock (`now`, whole
seconds), the set of peers whose connection fails when written to (`down`), the HTTP
response object (`Requester`) and the sending connection (`from`) are parameters. The
outbox field records every message that reached a peer. An exception inside an HTTP route
is answered by Express with an internal error (`ServerError`). An exception inside a peer
message handler or a timer is only logged (`Raised`). Either way, state changed before
the exception stays changed.

Behaviour of the program that the model keeps as it is:

- A failed send during `broadcast` splices the peer list while `forEach` walks it, so the
  peer right after a failing one receives nothing, although only the failing peer is
  meant to be dropped.
- The hashed text joins proofs with commas. Replacing the proofs `x`, `y` by the single
  proof `x,y` keeps the hash, so such a tampered block passes the successor rule, although
  tampered attendances are meant to be rejected. Likewise no proofs and the single empty
  proof `""` both turn into the empty text.
- `/addAttendance` to an open session queues the proof and then logs the queue's length.
  `log` calls `charAt` on its argument, which a number does not have, so the route throws
  after the push and is answered with an internal error, never with "OK".
- A session recorded at block index 0 counts as absent, and an empty proof is never
  found, because the program tests JavaScript truthiness.
- A node answers a verification request to the first peer of its list, not to the peer
  that asked.
- Votes and waiting requests are keyed by the proof alone. A second request for the same
  proof replaces the first, which is then never answered; no request identifier tells
  them apart.
- A vote that completes the count after the timer has answered finds no waiting request.
  The answer then throws, and the vote list stays behind.

## Model

| member | source | states |
|---|---|---|
| Ledger.DecimalString | notary/notary-server/server.js:386-389 | the text JavaScript's `+` makes of a non-negative number: non-empty decimal digits, without a leading zero unless the number is 0, whose value is the number |
| Ledger.NumberToString | notary/notary-server/server.js:386-389 | the text of any integer: a leading minus exactly for a negative number, followed by non-empty decimal digits, without a leading zero unless the number is 0, whose value is its magnitude |
| Ledger.NumberToStringInjective | notary/notary-server/server.js:386-389 | distinct numbers give distinct texts |
| Ledger.JoinSplitsBack | notary/notary-server/server.js:386-389 | the comma-joined text of one or more proofs without commas splits back into exactly those proofs (`Ledger.JoinWithCommas` against the independent `Ledger.SplitOnCommas`) |
| Ledger.PreimageDistinguishesTimestamps | notary/notary-server/server.js:386-389 | two preimages (`Ledger.Preimage`, the text `index + attendances + prevHash + timestamp`) that differ only in the timestamp are different texts |
| Ledger.HashIgnoresStoredHash | notary/notary-server/server.js:396-399 | `Ledger.CalculateHashForBlock` (and through it `Ledger.CalculateHash`) reads the index, attendances, predecessor hash and timestamp, never the block's stored hash |
| Ledger.GenesisBlock | notary/notary-server/server.js:391-394 | the genesis block has index 0, the "genesis" marker, predecessor hash "0", timestamp 1516459421, and its hash is SHA-256 of the text "0genesis01516459421" |
| Ledger.GenesisTimestampText | notary/notary-server/server.js:392-393 | the genesis timestamp 1516459421 turns into the text "1516459421" when concatenated |
| Ledger.GenesisPreimageIsComputed | notary/notary-server/server.js:386-393 | the text calculateHash hashes for the genesis fields is exactly "0" + "genesis" + "0" + "1516459421" |
| Ledger.GenesisHashIsCalculated | notary/notary-server/server.js:391-398 | the genesis block's stored hash equals calculateHashForBlock of that block, so it is hashed like any other block |
| Ledger.GenesisIsLedger | notary/notary-server/server.js:391-394 | the one-block chain holding the genesis block is a well-formed ledger |
| Ledger.LatestBlock | notary/notary-server/server.js:401-404 | the latest block is the last element, and it is undefined exactly when the chain is empty |
| Ledger.CreateNextBlock | notary/notary-server/server.js:406-416 | a created block holds the given proofs and timestamp and is a valid successor of the latest block; creation throws exactly on an empty chain |
| Ledger.SuccessorRule | notary/notary-server/server.js:426-442 | `Ledger.IsNextBlockValid` holds exactly when the new block's index is one more than the previous block's, its predecessor hash is the previous block's hash, and its hash recomputes; failing any one check rejects it |
| Ledger.TamperedBlockRejected | notary/notary-server/server.js:426-442 | changing a created block's index, predecessor hash or stored hash makes the successor rule reject it, whatever SHA-256 computes |
| Ledger.CommaTamperingUndetected | notary/notary-server/server.js:386-389 | replacing proofs x and y by the single proof "x,y" changes the block but keeps it a valid successor |
| Ledger.LedgerPositions | notary/notary-server/server.js:418-424 | in a ledger every block's index equals its position, so the index recorded by addBlock is where the block is |
| Ledger.AppendValidSuccessor | notary/notary-server/server.js:418-442 | appending a valid successor to a ledger yields a ledger, and the new block's index is the old chain length |
| Ledger.CreatedBlockExtendsLedger | notary/notary-server/server.js:406-424 | on a ledger, block creation succeeds and appending the created block yields a ledger with the block at the next position |
| Ledger.SortByIndex | notary/notary-server/server.js:139-142 | the adopted chain is ordered by ascending index and holds exactly the received blocks (a permutation) |
| Ledger.SortedChainUnchanged | notary/notary-server/server.js:139-142 | a chain received already in index order is adopted unchanged |
| RootIndex.RootMapOf | notary/notary-server/server.js:61-65 | the root index built from the stored records has exactly the records' session ids as keys |
| RootIndex.LaterRecordWins | notary/notary-server/server.js:61-65 | for a session named several times, the index of its last record wins |
| Peers.IndexOf | notary/notary-server/server.js:451 | the position found is the first one holding the peer, and it is -1 exactly when the peer is not listed |
| Peers.SpliceOut | notary/notary-server/server.js:444-454 | a failed send removes one peer from a non-empty list and never adds one: one occurrence of the target when it is listed, and the last peer when the target is undefined or unlisted |
| Peers.SpliceOutKeepsOrder | notary/notary-server/server.js:451 | removing a listed peer cuts out its first occurrence and keeps every other peer in its order |
| Peers.SendToLivePeer | notary/notary-server/server.js:444-454 | a send to a working connection delivers exactly one message and leaves the peer list alone |
| Peers.FailedSendToUnlistedPeer | notary/notary-server/server.js:444-454 | a failed send to an unlisted peer, or to the undefined first peer of an empty list, drops the last listed peer (nothing when the list is empty) |
| Peers.BroadcastAllUp | notary/notary-server/server.js:211-216 | when no send fails, every listed peer receives the message exactly once, in list order, and the list is unchanged |
| Peers.ForEachSendRecipientsBounded | notary/notary-server/server.js:211-216 | the sends from a position on reach each peer at most as often as it is listed at that position or later, although failed sends shift the list |
| Peers.BroadcastDeliversToLivePeers | notary/notary-server/server.js:211-216 | a broadcast delivers to each peer at most as many messages as it has entries in the list (so at most one to a peer listed once), only to listed working peers, and never adds a peer |
| Peers.BroadcastSkipsPeerAfterFailure | notary/notary-server/server.js:211-216 | with peers [p, q] where only p fails, q receives nothing and only q stays listed |
| Verification.Find | notary/notary-server/server.js:378-380 | the search finds a value exactly when the wanted proof is in the list, and then returns that proof |
| Verification.FindAttendanceInBlock | notary/notary-server/server.js:376-384 | the lookup throws exactly on the genesis marker; otherwise it is true exactly when the proof is non-empty and among the block's proofs |
| Verification.VerifyAttendance | notary/notary-server/server.js:363-374 | false when the session has no truthy root entry; otherwise it throws when the position is outside the chain or holds the genesis marker, and it is true exactly when the indexed block holds the non-empty proof |
| Verification.RecordedBlockLookup | notary/notary-server/server.js:363-374 | for a session recorded at a block inside the chain that holds the given proofs, the lookup answers whether the non-empty proof is among them |
| Verification.UnanimousConfirms | notary/notary-server/server.js:197-209 | one or more votes that all confirm form a majority |
| Verification.NoMajorityCases | notary/notary-server/server.js:197-209 | no votes, all-false votes and an exact half split are each not a majority |
| NodeSpec.AddAttendanceAppends | notary/notary-server/server.js:238-256 | a submission to an unopened session changes nothing and answers an error text, not "OK"; to an open session it appends the proof at the end of that queue only, and the length logged at line 253 makes the answer an internal error |
| NodeSpec.BeginOpensOrRefuses | notary/notary-server/server.js:268-284 | with a truthy root entry and an empty chain the latest-block lookup throws, answering an internal error with the state unchanged; otherwise opening is refused with the state unchanged when the root entry is truthy and not beyond the latest block, or when a queue exists; otherwise an empty queue is created and "OK" answered |
| NodeSpec.NotarizedSessionCannotReopen | notary/notary-server/server.js:271-277 | on a consistent node a session recorded at a non-zero index is always refused with "already exists" |
| NodeSpec.EndSealsQueue | notary/notary-server/server.js:285-293 | on a non-empty chain, closing an open session appends exactly one valid successor holding the queued proofs in submission order (also none), records the session at its index, broadcasts it, and deletes the queue |
| NodeSpec.EndOnEmptyChainThrows | notary/notary-server/server.js:285-293 | closing an open session on an empty chain throws in `createNextBlock` (the latest block is undefined): the answer is an internal error and the state is unchanged |
| NodeSpec.EndUnknownSessionIgnored | notary/notary-server/server.js:285-293 | closing a session that is not open changes nothing and answers "OK" |
| NodeSpec.OpenThenSubmitTwo | notary/notary-server/server.js:238-284 | opening a fresh session and submitting a then b leaves exactly [a, b] queued for it and nothing else changed |
| NodeSpec.ClosedSessionSeals | notary/notary-server/server.js:285-293 | closing a session with [a, b] queued appends one block at the next position holding [a, b], records the session at that position in the root index, drops the queue entry, and keeps the node consistent |
| NodeSpec.ClosedSessionLookup | notary/notary-server/server.js:285-297 | after closing a session with [a, b] queued, the lookup confirms a and denies a third proof c |
| NodeSpec.SessionLifecycle | notary/notary-server/server.js:238-297 | open S, submit a and b, close S: the new block is at the next position with proofs [a, b], the queues are as before, and the node stays consistent |
| NodeSpec.SessionLifecycleLookup | notary/notary-server/server.js:238-297 | after that open, submit, close sequence the lookup confirms a and denies another proof c |
| NodeSpec.HandleBlockAppendsValid | notary/notary-server/server.js:144-156 | a valid successor is appended at the end and recorded for its session, and every other root entry and all other state is unchanged |
| NodeSpec.HandleBlockRefetchesOnInvalid | notary/notary-server/server.js:144-156 | an invalid block leaves chain and root index unchanged and sends FETCH_BLOCKCHAIN to the first peer, which is dropped if that send fails |
| NodeSpec.HandleBlockchainAdoptsSorted | notary/notary-server/server.js:139-142 | a received chain replaces the local one as a permutation ordered by index, and nothing else changes |
| NodeSpec.AdoptingOwnLedgerChangesNothing | notary/notary-server/server.js:139-142 | receiving a copy of the node's own ledger leaves the node exactly as it was |
| NodeSpec.EndKeepsConsistent | notary/notary-server/server.js:285-293 | closing a session keeps the chain a ledger and every root entry inside it |
| NodeSpec.SameLedgerKeepsConsistent | notary/notary-server/server.js:238-284 | a step that changes neither the chain nor the root index keeps a consistent node consistent |
| NodeSpec.HandleBlockKeepsConsistent | notary/notary-server/server.js:144-156 | receiving a block keeps the chain a ledger and every root entry inside it |
| NodeSpec.HandleMessageKeepsConsistent | notary/notary-server/server.js:72-92 | every peer message keeps the node consistent, except a received chain that is not itself a ledger covering the root index |
| NodeSpec.MasterAnswersOrAsks | notary/notary-server/server.js:329-361 | an unknown session gets the "No sessionId" answer, a local lookup that throws (position outside the chain or the genesis block) an internal error, a local hit CONFIRMED and an empty peer list DENIED, all with state unchanged; when the lookup finds nothing and peers are listed, the request waits under the proof and the verify message is broadcast |
| NodeSpec.MasterAsksEveryLivePeer | notary/notary-server/server.js:341-347 | with every peer working, each peer receives exactly one VERIFY_ATTENDANCE message |
| NodeSpec.SameProofRequestsCollide | notary/notary-server/server.js:346 | a second request for the same proof, even for another session, replaces the first waiting request |
| NodeSpec.VoteRecordedOrDecides | notary/notary-server/server.js:165-195 | a vote appends exactly one entry to its proof's list; below the peer count only that list changes; at the count the waiting request is answered by majority and both entries go, or, with no waiting request, the handler throws |
| NodeSpec.UnanimousPeersConfirm | notary/notary-server/server.js:178-182 | when all peers' votes confirm, the last vote answers CONFIRMED |
| NodeSpec.HalfSplitDenies | notary/notary-server/server.js:183-191 | an exact half split of the peers' votes answers DENIED |
| NodeSpec.TimeoutDeniesOnlyWithoutVotes | notary/notary-server/server.js:350-357 | the timer answers DENIED and removes the waiting request only when no vote list exists and a request waits; otherwise, including partial votes, it changes nothing |
| NodeSpec.LateVoteAfterTimeout | notary/notary-server/server.js:173-188 | a vote that completes the count after the timer answered (here the single peer's vote) throws and leaves its vote list recorded |
| NodeSpec.DoubleRemovalDropsAnotherPeer | notary/notary-server/server.js:54-58 | removing an already-removed peer again drops the last remaining peer instead |
| NotaryNode.Node.constructor | notary/notary-server/server.js:460-468 | a started node holds the stored chain, the root index built from the stored records, and empty peer, queue, vote and waiting tables |
| NotaryNode.Node.RetrieveData | notary/notary-server/server.js:37-47 | the chain becomes the stored chain and the root index is rebuilt from the records in a fresh map |
| NotaryNode.Node.InitRootMap | notary/notary-server/server.js:61-65 | the loop leaves the root index as the old one overridden by every record in turn |
| NotaryNode.Node.AddToRootMap | notary/notary-server/server.js:67-70 | only the session's root entry is set |
| NotaryNode.Node.AddBlock | notary/notary-server/server.js:418-424 | the block is pushed and its session recorded at its index |
| NotaryNode.Node.Send | notary/notary-server/server.js:444-454 | performs Peers.SendEffect on the peer list and outbox |
| NotaryNode.Node.Broadcast | notary/notary-server/server.js:211-216 | the loop performs Peers.Broadcast on the peer list and outbox |
| NotaryNode.Node.AddAttendance | notary/notary-server/server.js:238-256 | performs NodeSpec.AddAttendanceStep: the proof is pushed onto an open session's queue and the route answers an internal error; an unopened session changes nothing |
| NotaryNode.Node.AddSession | notary/notary-server/server.js:258-297 | performs NodeSpec.AddSessionStep, answering "Bad request!" for a missing or empty state or session id and "Bad request" for an unknown state; keeps a consistent node consistent |
| NotaryNode.Node.BeginSession | notary/notary-server/server.js:269-284 | performs NodeSpec.BeginStep |
| NotaryNode.Node.EndSession | notary/notary-server/server.js:285-293 | performs NodeSpec.EndStep and keeps a consistent node consistent |
| NotaryNode.Node.HandleBlock | notary/notary-server/server.js:144-156 | performs NodeSpec.HandleBlockStep and keeps a consistent node consistent |
| NotaryNode.Node.HandleBlockchain | notary/notary-server/server.js:139-142 | performs NodeSpec.HandleBlockchainStep |
| NotaryNode.Node.HandleVerification | notary/notary-server/server.js:158-163 | performs NodeSpec.HandleVerificationStep: the local answer goes to the first peer |
| NotaryNode.Node.MajorityConfirm | notary/notary-server/server.js:197-209 | the counting loop answers true exactly when more than half of the proof's votes confirm |
| NotaryNode.Node.RecordVote | notary/notary-server/server.js:173-176 | only the proof's vote list changes: the vote is appended to it, or it starts as that one vote |
| NotaryNode.Node.HandleVerificationResponse | notary/notary-server/server.js:165-195 | performs NodeSpec.HandleVerificationResponseStep |
| NotaryNode.Node.HandleMessage | notary/notary-server/server.js:72-92 | performs NodeSpec.HandleMessageStep: dispatch by message type, unknown types ignored |
| NotaryNode.Node.VerifyAttendanceMaster | notary/notary-server/server.js:329-361 | performs NodeSpec.VerifyAttendanceMasterStep |
| NotaryNode.Node.TimeoutFires | notary/notary-server/server.js:350-357 | performs NodeSpec.TimeoutStep |
| NotaryNode.Node.Connect | notary/notary-server/server.js:49-53 | the new connection is appended to the peer list |
| NotaryNode.Node.Disconnect | notary/notary-server/server.js:54-58 | performs the splice of Peers.SpliceOut for the closed connection |

## Left out

- The Express server, its CORS middleware, the "/" route and JSON request and response marshalling. Routes are operations with typed arguments, and their answers are the `result` strings.
- The "/reset" route: it goes through the storage module. Its effect on the node is `RetrieveData` with whatever the storage then holds.
- Persistence through `./database/blockchain.js` (`retrieveExistingBlockchain`, `retrieveRootDB`, `pushBlock`, `pushRootItem`, `reset`): that module is not part of this model. Its asynchronous reads are taken as one step (`RetrieveData`).
- WebSocket server and client setup (`initP2PServer`, `connectToPeers`, the event wiring of `initConnection`). Connections are opaque ids; `Connect` and `Disconnect` model only the peer-list updates.
- Whether a write to a connection fails: the `down` parameter decides; the WebSocket library's own behaviour is not modelled.
- The SHA-256 computation itself (a parameter), `Date.now()` (the `now` parameter), and the 5-second `setTimeout` delay (the firing is the event `TimeoutFires`).
- `log` and the `uncaughtException` handler: the printed text is not modelled. Every `log` call passes a string except the one at `server.js:253`, whose number makes `log` throw; that throw is modelled as the `/addAttendance` answer `ServerError`. Any other exception is modelled as `Raised` or `ServerError`.
- `fetchBlockchain` (lines 132-137): it is never called; `handleBlock` sends its own FETCH_BLOCKCHAIN to the first peer.
- JSON framing of peer messages: numeric type codes and malformed frames (an unparsable frame throws in `JSON.parse`). Payload fields have fixed types here: string session ids and proofs, boolean votes, arrays of blocks.
- Ledger.NumberToString: plain decimal only; JavaScript's exponent form for magnitudes of 10^21 and above is not modelled.
- Ledger.SortByIndex: the contract states order and permutation, not the relative order of blocks with equal indices. `Array.prototype.sort` is stable only on engines following ECMAScript 2019 and later; older engines, such as the Node.js releases of 2018, need not keep that order.
- The web client pages and the service API's entity registration: presentation and library glue outside the notary node.
