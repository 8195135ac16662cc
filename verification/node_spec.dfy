/** The notary node's whole state and one transition function per handler: what each
    HTTP route, peer message and timer does to the state and what it answers. The
    class in module NotaryNode performs these transitions in place. */
module NodeSpec {
  import opened Wrappers
  import opened Ledger
  import opened RootIndex
  import opened Peers
  import opened Verification

  /** The HTTP response object of a verification request that waits for peer votes. */
  type Requester = nat

  /** The node's globals: the chain, the root index, the peer list, the open sessions'
      queues, the votes and the waiting requests (both keyed by the attendance proof
      alone), and every message delivered to a peer so far. */
  datatype NodeState = NodeState(
    chain: seq<Block>,
    rootMap: map<string, int>,
    peers: seq<PeerId>,
    queue: map<string, seq<string>>,
    claims: map<string, seq<bool>>,
    pending: map<string, Requester>,
    outbox: seq<Delivery>)

  /** The answer of an HTTP route: a `{"result": ...}` body, the internal-error answer
      Express gives when the route throws, or no answer yet (peers are being asked). */
  datatype Response = Json(result: string) | ServerError | Deferred

  /** What a peer message or a timer leads to: nothing more, an answer to a waiting
      HTTP request, or an exception that the process-wide handler only logs. */
  datatype Effect = Completed | Answered(requester: Requester, result: string) | Raised

  /** The state once the stored chain and root table have been read: `retrieveData`
      over a fresh process. */
  function InitialState(stored: seq<Block>, records: seq<RootRecord>): NodeState
  {
    NodeState(stored, RootMapOf(records), [], map[], map[], map[], [])
  }

  /** The chain is a ledger and every root entry names a position inside it. */
  predicate Consistent(sha: Sha256, s: NodeState)
  {
    IsLedger(sha, s.chain) &&
    forall sid :: sid in s.rootMap ==> 0 <= s.rootMap[sid] < |s.chain|
  }

  function SendFrom(s: NodeState, target: Option<PeerId>, m: Message, down: set<PeerId>): NodeState
  {
    var r := SendEffect(s.peers, target, m, down);
    s.(peers := r.0, outbox := s.outbox + r.1)
  }

  function BroadcastFrom(s: NodeState, m: Message, down: set<PeerId>): NodeState
  {
    var r := Broadcast(s.peers, m, down);
    s.(peers := r.0, outbox := s.outbox + r.1)
  }

  /** `addBlock`: push the block and record the session at the block's index. */
  function WithBlock(s: NodeState, sessionId: string, b: Block): NodeState
  {
    s.(chain := s.chain + [b], rootMap := s.rootMap[sessionId := b.index])
  }

  /** POST /addAttendance. After the proof is pushed, the route logs the queue's length;
      `log` calls `charAt` on its argument, which a number does not have, so the route
      throws before it answers and Express answers with an internal error. The pushed
      proof stays queued. */
  function AddAttendanceStep(s: NodeState, sessionId: string, attendance: string): (NodeState, Response)
  {
    if sessionId !in s.queue then (s, Json("Session " + sessionId + " does not exist!"))
    else (s.(queue := s.queue[sessionId := s.queue[sessionId] + [attendance]]), ServerError)
  }

  /** POST /addSession with state "begin". Reading the latest block of an empty chain
      throws. */
  function BeginStep(s: NodeState, sessionId: string): (NodeState, Response)
  {
    if IsRecorded(s.rootMap, sessionId) && |s.chain| == 0 then (s, ServerError)
    else if IsRecorded(s.rootMap, sessionId) && s.rootMap[sessionId] <= s.chain[|s.chain| - 1].index then
      (s, Json("Block for session " + sessionId + " already exists!"))
    else if sessionId in s.queue then (s, Json("Session " + sessionId + " already began!"))
    else (s.(queue := s.queue[sessionId := []]), Json("OK"))
  }

  /** POST /addSession with state "end": seal the queue into a block, announce it to
      every peer and close the queue. An unknown session is answered "OK" all the same. */
  function EndStep(sha: Sha256, s: NodeState, sessionId: string, now: int, down: set<PeerId>): (NodeState, Response)
  {
    if sessionId !in s.queue then (s, Json("OK"))
    else match CreateNextBlock(sha, s.chain, s.queue[sessionId], now)
      case Threw => (s, ServerError)
      case Ok(b) =>
        var announced := BroadcastFrom(WithBlock(s, sessionId, b), AddBlockMsg(sessionId, b), down);
        (announced.(queue := announced.queue - {sessionId}), Json("OK"))
  }

  /** POST /addSession: `state` and `sessionId` are `None` when missing or null. */
  function AddSessionStep(sha: Sha256, s: NodeState, state: Option<string>, sessionId: Option<string>, now: int, down: set<PeerId>): (NodeState, Response)
  {
    if state.None? || state.value == "" || sessionId.None? || sessionId.value == "" then
      (s, Json("Bad request!"))
    else if state.value == "begin" then BeginStep(s, sessionId.value)
    else if state.value == "end" then EndStep(sha, s, sessionId.value, now, down)
    else (s, Json("Bad request"))
  }

  /** ADD_BLOCK from a peer: append a valid successor, otherwise ask the first peer for
      its whole chain. */
  function HandleBlockStep(sha: Sha256, s: NodeState, sessionId: string, b: Block, down: set<PeerId>): (NodeState, Effect)
  {
    if |s.chain| == 0 then (s, Raised)
    else if IsNextBlockValid(sha, b, s.chain[|s.chain| - 1]) then (WithBlock(s, sessionId, b), Completed)
    else (SendFrom(s, FirstPeer(s.peers), FetchBlockchainMsg, down), Completed)
  }

  /** RESPONSE_BLOCKCHAIN: adopt the received chain, sorted by index, without checking it. */
  function HandleBlockchainStep(s: NodeState, blocks: seq<Block>): NodeState
  {
    s.(chain := SortByIndex(blocks))
  }

  /** VERIFY_ATTENDANCE: look the proof up locally and send the answer to the FIRST peer
      of the list (not necessarily the one that asked). */
  function HandleVerificationStep(s: NodeState, sessionId: string, attendance: string, down: set<PeerId>): (NodeState, Effect)
  {
    match VerifyAttendance(s.chain, s.rootMap, sessionId, attendance)
    case Threw => (s, Raised)
    case Ok(found) =>
      (SendFrom(s, FirstPeer(s.peers), ResponseVerificationMsg(sessionId, attendance, found), down), Completed)
  }

  /** The votes recorded for `attendance` once `vote` is added. */
  function VotesWith(s: NodeState, attendance: string, vote: bool): seq<bool>
  {
    (if attendance in s.claims then s.claims[attendance] else []) + [vote]
  }

  /** RESPONSE_VERIFICATION: record the vote; once there are as many votes as peers
      right now, answer the waiting request by majority and forget both entries. With no
      waiting request the answer throws after the vote has been recorded. */
  function HandleVerificationResponseStep(s: NodeState, sessionId: string, attendance: string, vote: bool): (NodeState, Effect)
  {
    var votes := VotesWith(s, attendance, vote);
    if |votes| != |s.peers| then (s.(claims := s.claims[attendance := votes]), Completed)
    else if attendance !in s.pending then (s.(claims := s.claims[attendance := votes]), Raised)
    else
      (s.(claims := s.claims - {attendance}, pending := s.pending - {attendance}),
       Answered(s.pending[attendance], if IsMajority(votes) then Confirmed else Denied))
  }

  /** `messageHandler`: dispatch on the message type; `from` is the sending connection. */
  function HandleMessageStep(sha: Sha256, s: NodeState, from: PeerId, m: Message, down: set<PeerId>): (NodeState, Effect)
  {
    match m
    case FetchBlockchainMsg => (SendFrom(s, Some(from), ResponseBlockchainMsg(s.chain), down), Completed)
    case ResponseBlockchainMsg(blocks) => (HandleBlockchainStep(s, blocks), Completed)
    case AddBlockMsg(sessionId, b) => HandleBlockStep(sha, s, sessionId, b, down)
    case VerifyAttendanceMsg(sessionId, attendance) => HandleVerificationStep(s, sessionId, attendance, down)
    case ResponseVerificationMsg(sessionId, attendance, vote) => HandleVerificationResponseStep(s, sessionId, attendance, vote)
    case UnknownMsg => (s, Completed)
  }

  /** GET /verifyAttendance: answer from the local chain when it confirms, deny when there
      is no peer to ask, otherwise park the request under the proof and ask every peer. */
  function VerifyAttendanceMasterStep(s: NodeState, sessionId: string, attendance: string, requester: Requester, down: set<PeerId>): (NodeState, Response)
  {
    if !IsRecorded(s.rootMap, sessionId) then (s, Json("No sessionId: " + sessionId + " found."))
    else match VerifyAttendance(s.chain, s.rootMap, sessionId, attendance)
      case Threw => (s, ServerError)
      case Ok(found) =>
        if found then (s, Json(Confirmed))
        else if |s.peers| == 0 then (s, Json(Denied))
        else
          (BroadcastFrom(s.(pending := s.pending[attendance := requester]), VerifyAttendanceMsg(sessionId, attendance), down),
           Deferred)
  }

  /** The 5-second timer armed by a verification request: deny only if no vote has
      arrived for the proof and a request is still waiting under it. */
  function TimeoutStep(s: NodeState, attendance: string): (NodeState, Effect)
  {
    if attendance !in s.claims && attendance in s.pending then
      (s.(pending := s.pending - {attendance}), Answered(s.pending[attendance], Denied))
    else (s, Completed)
  }

  /** A new connection, inbound or outbound. */
  function ConnectStep(s: NodeState, p: PeerId): NodeState
  {
    s.(peers := s.peers + [p])
  }

  /** A connection's 'close' event. */
  function DisconnectStep(s: NodeState, p: PeerId): NodeState
  {
    s.(peers := SpliceOut(s.peers, Some(p)))
  }

  // ---------------------------------------------------------------------------
  // Session queue

  /** Submitting to a session that is not open changes nothing and is answered with an
      error text; to an open session it appends the proof at the end of that session's
      queue and changes nothing else, and the answer is an internal error. */
  lemma {:induction false} AddAttendanceAppends(s: NodeState, sessionId: string, attendance: string)
    ensures var (t, resp) := AddAttendanceStep(s, sessionId, attendance);
      && (sessionId !in s.queue ==> t == s && resp.Json? && resp != Json("OK"))
      && (sessionId in s.queue ==>
            && resp == ServerError
            && t.queue.Keys == s.queue.Keys
            && t.queue[sessionId] == s.queue[sessionId] + [attendance]
            && (forall other :: other in s.queue && other != sessionId ==> t.queue[other] == s.queue[other])
            && t == s.(queue := t.queue))
  {
    assert "Session " + sessionId + " does not exist!" != "OK";
  }

  /** A recorded session on an empty chain throws when the latest block is read, with
      the state unchanged. Otherwise opening is refused, with the state unchanged, when
      the root index holds a truthy index not beyond the latest block for the session or
      when the session is already open; in every other case it creates an empty queue. */
  lemma {:induction false} BeginOpensOrRefuses(s: NodeState, sessionId: string)
    ensures var (t, resp) := BeginStep(s, sessionId);
      var throws := IsRecorded(s.rootMap, sessionId) && |s.chain| == 0;
      var notarized := IsRecorded(s.rootMap, sessionId) && |s.chain| > 0 &&
        s.rootMap[sessionId] <= s.chain[|s.chain| - 1].index;
      && (throws ==> t == s && resp == ServerError)
      && (!throws && (notarized || sessionId in s.queue) ==> t == s && resp.Json? && resp != Json("OK"))
      && (!throws && !notarized && sessionId !in s.queue ==>
            t == s.(queue := s.queue[sessionId := []]) && resp == Json("OK"))
  {
    assert ("Block for session " + sessionId + " already exists!")[0] == 'B';
    assert ("Session " + sessionId + " already began!")[0] == 'S';
  }

  /** On a consistent node a session the root index records at a non-zero block can
      never be opened again. Index 0 counts as absent. */
  lemma {:induction false} NotarizedSessionCannotReopen(sha: Sha256, s: NodeState, sessionId: string)
    requires Consistent(sha, s)
    requires IsRecorded(s.rootMap, sessionId)
    ensures BeginStep(s, sessionId) == (s, Json("Block for session " + sessionId + " already exists!"))
  {
    LedgerPositions(sha, s.chain, |s.chain| - 1);
  }

  /** Closing an open session appends exactly one block, a valid successor of the latest
      block holding the queued proofs in submission order (also when there are none),
      records the session at that block, announces the block to the peers and deletes
      the queue. */
  lemma {:induction false} EndSealsQueue(sha: Sha256, s: NodeState, sessionId: string, now: int, down: set<PeerId>)
    requires sessionId in s.queue && |s.chain| > 0
    ensures var (t, resp) := EndStep(sha, s, sessionId, now, down);
      var latest := s.chain[|s.chain| - 1];
      && resp == Json("OK")
      && |t.chain| == |s.chain| + 1 && t.chain[..|s.chain|] == s.chain
      && var b := t.chain[|s.chain|];
      && b.attendances == Proofs(s.queue[sessionId]) && b.index == latest.index + 1 && b.timestamp == now
      && IsNextBlockValid(sha, b, latest)
      && t.rootMap == s.rootMap[sessionId := b.index]
      && t.queue == s.queue - {sessionId}
      && t.claims == s.claims && t.pending == s.pending
      && (t.peers, t.outbox) == (Broadcast(s.peers, AddBlockMsg(sessionId, b), down).0,
                                 s.outbox + Broadcast(s.peers, AddBlockMsg(sessionId, b), down).1)
  {
    var b := CreateNextBlock(sha, s.chain, s.queue[sessionId], now).value;
    assert (s.chain + [b])[..|s.chain|] == s.chain;
  }

  /** Closing a session that is not open changes nothing (and still answers "OK"). */
  lemma {:induction false} EndUnknownSessionIgnored(sha: Sha256, s: NodeState, sessionId: string, now: int, down: set<PeerId>)
    requires sessionId !in s.queue
    ensures EndStep(sha, s, sessionId, now, down) == (s, Json("OK"))
  {
  }

  /** Closing an open session on an empty chain throws when the latest block is read:
      the answer is an internal error and nothing changes. */
  lemma {:induction false} EndOnEmptyChainThrows(sha: Sha256, s: NodeState, sessionId: string, now: int, down: set<PeerId>)
    requires sessionId in s.queue && |s.chain| == 0
    ensures EndStep(sha, s, sessionId, now, down) == (s, ServerError)
  {
  }

  /** Opening a fresh session and submitting a and b leaves exactly [a, b] queued for it. */
  lemma {:induction false} OpenThenSubmitTwo(s: NodeState, sessionId: string, a: string, b: string)
    requires !IsRecorded(s.rootMap, sessionId) && sessionId !in s.queue
    ensures var t := AddAttendanceStep(AddAttendanceStep(BeginStep(s, sessionId).0, sessionId, a).0, sessionId, b).0;
      t == s.(queue := s.queue[sessionId := [a, b]])
  {
    var started := BeginStep(s, sessionId).0;
    assert started == s.(queue := s.queue[sessionId := []]);
    var withA := AddAttendanceStep(started, sessionId, a).0;
    assert [] + [a] == [a];
    assert withA == s.(queue := s.queue[sessionId := [a]]);
    assert [a] + [b] == [a, b];
  }

  /** Closing a session with [a, b] queued seals a block holding [a, b] at the next
      position, records the session there, drops the queue entry and keeps the node
      consistent. */
  lemma {:induction false} ClosedSessionSeals(sha: Sha256, t: NodeState, sessionId: string, a: string, b: string, now: int, down: set<PeerId>)
    requires Consistent(sha, t)
    requires sessionId in t.queue && t.queue[sessionId] == [a, b]
    ensures var closed := EndStep(sha, t, sessionId, now, down).0;
      && |closed.chain| == |t.chain| + 1
      && closed.chain[|t.chain|].attendances == Proofs([a, b])
      && closed.chain[|t.chain|].index == |t.chain|
      && closed.rootMap == t.rootMap[sessionId := |t.chain|]
      && closed.queue == t.queue - {sessionId}
      && Consistent(sha, closed)
  {
    EndSealsQueue(sha, t, sessionId, now, down);
    EndKeepsConsistent(sha, t, sessionId, now, down);
    LedgerPositions(sha, t.chain, |t.chain| - 1);
  }

  /** After closing a session with [a, b] queued, its lookup confirms a, and not a third
      proof c. */
  lemma {:induction false} ClosedSessionLookup(sha: Sha256, t: NodeState, sessionId: string, a: string, b: string, c: string, now: int, down: set<PeerId>)
    requires Consistent(sha, t)
    requires sessionId in t.queue && t.queue[sessionId] == [a, b]
    requires a != "" && c != a && c != b
    ensures var closed := EndStep(sha, t, sessionId, now, down).0;
      && VerifyAttendance(closed.chain, closed.rootMap, sessionId, a) == Ok(true)
      && VerifyAttendance(closed.chain, closed.rootMap, sessionId, c) == Ok(false)
  {
    ClosedSessionSeals(sha, t, sessionId, a, b, now, down);
    EndSealsQueue(sha, t, sessionId, now, down);
    var closed := EndStep(sha, t, sessionId, now, down).0;
    assert closed.rootMap[sessionId] == |t.chain|;
    RecordedBlockLookup(closed.chain, closed.rootMap, sessionId, [a, b], a);
    RecordedBlockLookup(closed.chain, closed.rootMap, sessionId, [a, b], c);
  }

  /** Closing a session that was opened on `s` and then holds [a, b] restores the queue
      table of `s` and seals [a, b] at the next position of a consistent chain. */
  lemma {:induction false} SealedAfterOpening(sha: Sha256, s: NodeState, t: NodeState, sessionId: string, a: string, b: string, now: int, down: set<PeerId>)
    requires Consistent(sha, s) && sessionId !in s.queue
    requires t == s.(queue := s.queue[sessionId := [a, b]])
    ensures var closed := EndStep(sha, t, sessionId, now, down).0;
      && |closed.chain| == |s.chain| + 1
      && closed.chain[|s.chain|].attendances == Proofs([a, b])
      && closed.chain[|s.chain|].index == |s.chain|
      && closed.queue == s.queue
      && Consistent(sha, closed)
  {
    SameLedgerKeepsConsistent(sha, s, t);
    ClosedSessionSeals(sha, t, sessionId, a, b, now, down);
    assert t.queue - {sessionId} == s.queue;
  }

  /** A closed session's block holds exactly the proofs submitted while it was open:
      open S, submit a and b, close S; then the newest block is at the next position
      with attendances [a, b], the queue table is as before and the node is consistent. */
  lemma {:induction false} SessionLifecycle(sha: Sha256, s: NodeState, sessionId: string, a: string, b: string, now: int, down: set<PeerId>)
    requires Consistent(sha, s)
    requires !IsRecorded(s.rootMap, sessionId) && sessionId !in s.queue
    ensures var submitted := AddAttendanceStep(AddAttendanceStep(BeginStep(s, sessionId).0, sessionId, a).0, sessionId, b).0;
      var closed := EndStep(sha, submitted, sessionId, now, down).0;
      && |closed.chain| == |s.chain| + 1
      && closed.chain[|s.chain|].attendances == Proofs([a, b])
      && closed.chain[|s.chain|].index == |s.chain|
      && closed.queue == s.queue
      && Consistent(sha, closed)
  {
    OpenThenSubmitTwo(s, sessionId, a, b);
    var submitted := AddAttendanceStep(AddAttendanceStep(BeginStep(s, sessionId).0, sessionId, a).0, sessionId, b).0;
    SealedAfterOpening(sha, s, submitted, sessionId, a, b, now, down);
  }

  /** After open S, submit a and b, close S, the lookup for S confirms a and does not
      confirm a third proof c. */
  lemma {:induction false} SessionLifecycleLookup(sha: Sha256, s: NodeState, sessionId: string, a: string, b: string, c: string, now: int, down: set<PeerId>)
    requires Consistent(sha, s)
    requires !IsRecorded(s.rootMap, sessionId) && sessionId !in s.queue
    requires a != "" && c != a && c != b
    ensures var submitted := AddAttendanceStep(AddAttendanceStep(BeginStep(s, sessionId).0, sessionId, a).0, sessionId, b).0;
      var closed := EndStep(sha, submitted, sessionId, now, down).0;
      && VerifyAttendance(closed.chain, closed.rootMap, sessionId, a) == Ok(true)
      && VerifyAttendance(closed.chain, closed.rootMap, sessionId, c) == Ok(false)
  {
    OpenThenSubmitTwo(s, sessionId, a, b);
    var submitted := AddAttendanceStep(AddAttendanceStep(BeginStep(s, sessionId).0, sessionId, a).0, sessionId, b).0;
    assert submitted == s.(queue := s.queue[sessionId := [a, b]]);
    SameLedgerKeepsConsistent(sha, s, submitted);
    ClosedSessionLookup(sha, submitted, sessionId, a, b, c, now, down);
  }

  // ---------------------------------------------------------------------------
  // Receiving blocks and chains

  /** A valid successor is appended at the end and recorded for its session, every other
      root entry and the rest of the state staying as they were. */
  lemma {:induction false} HandleBlockAppendsValid(sha: Sha256, s: NodeState, sessionId: string, b: Block, down: set<PeerId>)
    requires |s.chain| > 0 && IsNextBlockValid(sha, b, s.chain[|s.chain| - 1])
    ensures var (t, e) := HandleBlockStep(sha, s, sessionId, b, down);
      && e == Completed
      && t.chain == s.chain + [b]
      && sessionId in t.rootMap && t.rootMap[sessionId] == b.index
      && (forall other :: other != sessionId ==> (other in t.rootMap <==> other in s.rootMap))
      && (forall other :: other in s.rootMap && other != sessionId ==> t.rootMap[other] == s.rootMap[other])
      && t == s.(chain := t.chain, rootMap := t.rootMap)
  {
  }

  /** An invalid block leaves chain and root index alone and sends FETCH_BLOCKCHAIN to the
      first peer (which, if it is down, is dropped instead). */
  lemma {:induction false} HandleBlockRefetchesOnInvalid(sha: Sha256, s: NodeState, sessionId: string, b: Block, down: set<PeerId>)
    requires |s.chain| > 0 && !IsNextBlockValid(sha, b, s.chain[|s.chain| - 1])
    ensures var (t, e) := HandleBlockStep(sha, s, sessionId, b, down);
      && e == Completed
      && t.chain == s.chain && t.rootMap == s.rootMap
      && t.queue == s.queue && t.claims == s.claims && t.pending == s.pending
      && (s.peers != [] && s.peers[0] !in down ==>
            t.peers == s.peers && t.outbox == s.outbox + [Delivery(s.peers[0], FetchBlockchainMsg)])
      && (s.peers != [] && s.peers[0] in down ==>
            t.peers == s.peers[1..] && t.outbox == s.outbox)
      && (s.peers == [] ==> t == s)
  {
  }

  /** A received chain replaces the local one, reordered by ascending index and holding
      exactly the received blocks. */
  lemma {:induction false} HandleBlockchainAdoptsSorted(s: NodeState, blocks: seq<Block>)
    ensures var t := HandleBlockchainStep(s, blocks);
      && SortedByIndex(t.chain) && multiset(t.chain) == multiset(blocks)
      && t == s.(chain := t.chain)
  {
  }

  /** Receiving a copy of one's own ledger leaves the node exactly as it was. */
  lemma {:induction false} AdoptingOwnLedgerChangesNothing(sha: Sha256, s: NodeState)
    requires IsLedger(sha, s.chain)
    ensures HandleBlockchainStep(s, s.chain) == s
  {
    LedgerIsSorted(sha, s.chain);
    SortedChainUnchanged(s.chain);
  }

  /** A consistent node stays consistent when it closes a session. */
  lemma {:induction false} EndKeepsConsistent(sha: Sha256, s: NodeState, sessionId: string, now: int, down: set<PeerId>)
    requires Consistent(sha, s)
    ensures Consistent(sha, EndStep(sha, s, sessionId, now, down).0)
  {
    if sessionId in s.queue {
      CreatedBlockExtendsLedger(sha, s.chain, s.queue[sessionId], now);
    }
  }

  /** A consistent node stays consistent when a peer sends it a block. */
  lemma {:induction false} HandleBlockKeepsConsistent(sha: Sha256, s: NodeState, sessionId: string, b: Block, down: set<PeerId>)
    requires Consistent(sha, s)
    ensures Consistent(sha, HandleBlockStep(sha, s, sessionId, b, down).0)
  {
    var t := HandleBlockStep(sha, s, sessionId, b, down).0;
    if IsNextBlockValid(sha, b, s.chain[|s.chain| - 1]) {
      assert t == WithBlock(s, sessionId, b);
      ValidBlockKeepsConsistent(sha, s, sessionId, b);
    } else {
      assert t == SendFrom(s, FirstPeer(s.peers), FetchBlockchainMsg, down);
      SameLedgerKeepsConsistent(sha, s, t);
    }
  }

  /** Appending a valid successor and recording the session at it keeps consistency. */
  lemma {:induction false} ValidBlockKeepsConsistent(sha: Sha256, s: NodeState, sessionId: string, b: Block)
    requires Consistent(sha, s)
    requires IsNextBlockValid(sha, b, s.chain[|s.chain| - 1])
    ensures Consistent(sha, WithBlock(s, sessionId, b))
  {
    AppendValidSuccessor(sha, s.chain, b);
  }

  /** Consistency depends only on the chain and the root index. */
  lemma {:induction false} SameLedgerKeepsConsistent(sha: Sha256, s: NodeState, t: NodeState)
    requires Consistent(sha, s)
    requires t.chain == s.chain && t.rootMap == s.rootMap
    ensures Consistent(sha, t)
  {
  }

  /** Every peer message except a whole chain keeps a consistent node consistent; a
      received chain is adopted unchecked, so it keeps consistency only when it is itself
      a ledger long enough for the root index. */
  lemma {:induction false} HandleMessageKeepsConsistent(sha: Sha256, s: NodeState, from: PeerId, m: Message, down: set<PeerId>)
    requires Consistent(sha, s)
    requires m.ResponseBlockchainMsg? ==>
      IsLedger(sha, m.chain) && forall sid :: sid in s.rootMap ==> s.rootMap[sid] < |m.chain|
    ensures Consistent(sha, HandleMessageStep(sha, s, from, m, down).0)
  {
    match m {
      case AddBlockMsg(sessionId, b) => HandleBlockKeepsConsistent(sha, s, sessionId, b, down);
      case ResponseBlockchainMsg(blocks) =>
        LedgerIsSorted(sha, blocks);
        SortedChainUnchanged(blocks);
      case _ =>
    }
  }

  // ---------------------------------------------------------------------------
  // Verification coordinator

  /** The requester's first steps: unknown session, local hit and no peers are answered
      at once without touching votes or waiting requests; a local lookup that throws (the
      recorded position is outside the chain or holds the genesis marker) is answered with
      an internal error, the state unchanged; otherwise the request waits under the proof
      and every peer is asked once. */
  lemma {:induction false} MasterAnswersOrAsks(s: NodeState, sessionId: string, attendance: string, requester: Requester, down: set<PeerId>)
    ensures var (t, resp) := VerifyAttendanceMasterStep(s, sessionId, attendance, requester, down);
      var local := VerifyAttendance(s.chain, s.rootMap, sessionId, attendance);
      && (!IsRecorded(s.rootMap, sessionId) ==> t == s && resp == Json("No sessionId: " + sessionId + " found."))
      && (IsRecorded(s.rootMap, sessionId) && local.Threw? ==> t == s && resp == ServerError)
      && (IsRecorded(s.rootMap, sessionId) && local == Ok(true) ==> t == s && resp == Json(Confirmed))
      && (IsRecorded(s.rootMap, sessionId) && local == Ok(false) && s.peers == [] ==> t == s && resp == Json(Denied))
      && (IsRecorded(s.rootMap, sessionId) && local == Ok(false) && s.peers != [] ==>
            && resp == Deferred
            && t.pending == s.pending[attendance := requester]
            && t.claims == s.claims && t.chain == s.chain && t.rootMap == s.rootMap && t.queue == s.queue
            && (t.peers, t.outbox) == (Broadcast(s.peers, VerifyAttendanceMsg(sessionId, attendance), down).0,
                                       s.outbox + Broadcast(s.peers, VerifyAttendanceMsg(sessionId, attendance), down).1))
  {
  }

  /** With every peer up, asking the peers delivers exactly one VERIFY_ATTENDANCE message
      to each of them, in list order. */
  lemma {:induction false} MasterAsksEveryLivePeer(s: NodeState, sessionId: string, attendance: string, requester: Requester, down: set<PeerId>)
    requires VerifyAttendance(s.chain, s.rootMap, sessionId, attendance) == Ok(false)
    requires IsRecorded(s.rootMap, sessionId) && s.peers != []
    requires forall p :: p in s.peers ==> p !in down
    ensures var t := VerifyAttendanceMasterStep(s, sessionId, attendance, requester, down).0;
      t.peers == s.peers && t.outbox == s.outbox + DeliveriesTo(s.peers, VerifyAttendanceMsg(sessionId, attendance))
  {
    BroadcastAllUp(s.peers, VerifyAttendanceMsg(sessionId, attendance), down);
  }

  /** Two requests for the same proof collide: the second replaces the first in the
      waiting table, so the first can no longer be answered by votes or by its timer. */
  lemma {:induction false} SameProofRequestsCollide(s: NodeState, sessionId: string, otherSession: string, attendance: string, first: Requester, second: Requester, down: set<PeerId>)
    requires IsRecorded(s.rootMap, sessionId) && IsRecorded(s.rootMap, otherSession)
    requires VerifyAttendance(s.chain, s.rootMap, sessionId, attendance) == Ok(false)
    requires VerifyAttendance(s.chain, s.rootMap, otherSession, attendance) == Ok(false)
    requires forall p :: p in s.peers ==> p !in down
    requires s.peers != [] && first != second
    ensures var t := VerifyAttendanceMasterStep(s, sessionId, attendance, first, down).0;
      var u := VerifyAttendanceMasterStep(t, otherSession, attendance, second, down).0;
      u.pending[attendance] == second && (forall a :: a in u.pending ==> u.pending[a] != first || a != attendance)
  {
    BroadcastAllUp(s.peers, VerifyAttendanceMsg(sessionId, attendance), down);
  }

  /** A vote is appended to the list for its proof. Until the list is as long as the
      peer list only the list changes; then the waiting request is answered by majority
      and both entries for the proof are removed. */
  lemma {:induction false} VoteRecordedOrDecides(s: NodeState, sessionId: string, attendance: string, vote: bool)
    ensures var (t, e) := HandleVerificationResponseStep(s, sessionId, attendance, vote);
      var votes := VotesWith(s, attendance, vote);
      && |votes| == (if attendance in s.claims then |s.claims[attendance]| else 0) + 1
      && votes[|votes| - 1] == vote
      && t.chain == s.chain && t.rootMap == s.rootMap && t.peers == s.peers && t.queue == s.queue && t.outbox == s.outbox
      && (|votes| != |s.peers| ==> e == Completed && t == s.(claims := s.claims[attendance := votes]))
      && (|votes| == |s.peers| && attendance in s.pending ==>
            && e == Answered(s.pending[attendance], if IsMajority(votes) then Confirmed else Denied)
            && attendance !in t.claims && attendance !in t.pending
            && t.claims == s.claims - {attendance} && t.pending == s.pending - {attendance})
      && (|votes| == |s.peers| && attendance !in s.pending ==>
            e == Raised && t == s.(claims := s.claims[attendance := votes]))
  {
  }

  /** N peers that all confirm: the N-th confirming vote answers "confirmed". */
  lemma {:induction false} UnanimousPeersConfirm(s: NodeState, sessionId: string, attendance: string)
    requires attendance in s.pending
    requires attendance in s.claims ==> forall i :: 0 <= i < |s.claims[attendance]| ==> s.claims[attendance][i]
    requires |VotesWith(s, attendance, true)| == |s.peers|
    ensures HandleVerificationResponseStep(s, sessionId, attendance, true).1 == Answered(s.pending[attendance], Confirmed)
  {
    UnanimousConfirms(VotesWith(s, attendance, true));
  }

  /** An exact half split of the peers' votes answers "denied". */
  lemma {:induction false} HalfSplitDenies(s: NodeState, sessionId: string, attendance: string, vote: bool)
    requires attendance in s.pending
    requires var votes := VotesWith(s, attendance, vote); |votes| == |s.peers| && 2 * Confirmations(votes) == |votes|
    ensures HandleVerificationResponseStep(s, sessionId, attendance, vote).1 == Answered(s.pending[attendance], Denied)
  {
    NoMajorityCases(VotesWith(s, attendance, vote));
  }

  /** The timer answers "denied" and drops the waiting request only when no vote list
      exists for the proof and a request is still waiting; otherwise, in particular when
      some but not all votes have arrived, it changes nothing. */
  lemma {:induction false} TimeoutDeniesOnlyWithoutVotes(s: NodeState, attendance: string)
    ensures var (t, e) := TimeoutStep(s, attendance);
      && (attendance !in s.claims && attendance in s.pending ==>
            e == Answered(s.pending[attendance], Denied) && t == s.(pending := s.pending - {attendance}))
      && (attendance in s.claims || attendance !in s.pending ==> t == s && e == Completed)
  {
  }

  /** A vote that arrives after the timer has answered finds no waiting request: when
      it completes the count, the answer throws and the vote stays recorded. */
  lemma {:induction false} LateVoteAfterTimeout(s: NodeState, sessionId: string, attendance: string, vote: bool)
    requires attendance !in s.claims && attendance in s.pending
    requires |s.peers| == 1
    ensures var afterTimer := TimeoutStep(s, attendance).0;
      var (t, e) := HandleVerificationResponseStep(afterTimer, sessionId, attendance, vote);
      e == Raised && t.claims[attendance] == [vote] && attendance !in t.pending
  {
  }

  // ---------------------------------------------------------------------------
  // Peer list

  /** A peer's close event after a failed send already removed it: `indexOf` gives -1
      and the splice drops the last peer of the list instead. */
  lemma {:induction false} DoubleRemovalDropsAnotherPeer(s: NodeState, p: PeerId, q: PeerId)
    requires s.peers == [p, q] && p != q
    ensures DisconnectStep(DisconnectStep(s, p), p).peers == []
  {
    assert SpliceOut([p, q], Some(p)) == [q];
  }
}
