/** The notary node as the program runs it: one object whose fields are the process's
    globals, updated in place by the HTTP routes, the peer-message handlers and the
    verification timer. Each method is proved to perform the transition of the same
    name in module NodeSpec. */
module NotaryNode {
  import opened Wrappers
  import opened Ledger
  import opened RootIndex
  import opened Peers
  import opened Verification
  import opened NodeSpec

  /** Setting a key after a union is the union with the key set in the right operand. */
  lemma {:induction false} UnionThenSet<K, V>(m: map<K, V>, a: map<K, V>, k: K, v: V)
    ensures (m + a)[k := v] == m + a[k := v]
  {
  }

  /** One step of `broadcast`'s iteration: sending to position k and then going on from
      k + 1 over the resulting list ends where the iteration from k ends. */
  lemma {:induction false} SendThenContinue(peers: seq<PeerId>, k: nat, stop: nat, m: Message, down: set<PeerId>, outbox: seq<Delivery>)
    requires k < stop && k < |peers|
    ensures var sent := SendEffect(peers, Some(peers[k]), m, down);
      var rest := ForEachSend(sent.0, k + 1, stop, m, down);
      && rest.0 == ForEachSend(peers, k, stop, m, down).0
      && (outbox + sent.1) + rest.1 == outbox + ForEachSend(peers, k, stop, m, down).1
  {
    var sent := SendEffect(peers, Some(peers[k]), m, down);
    var rest := ForEachSend(sent.0, k + 1, stop, m, down);
    assert ForEachSend(peers, k, stop, m, down) == (rest.0, sent.1 + rest.1);
    assert (outbox + sent.1) + rest.1 == outbox + (sent.1 + rest.1);
  }

  class Node {
    /** SHA-256 as the node computes it. */
    const sha: Sha256

    var chain: seq<Block>
    var rootMap: map<string, int>
    var peers: seq<PeerId>
    var queue: map<string, seq<string>>
    var claims: map<string, seq<bool>>
    var pending: map<string, Requester>
    var outbox: seq<Delivery>

    function State(): NodeState
      reads this
    {
      NodeState(chain, rootMap, peers, queue, claims, pending, outbox)
    }

    predicate Consistent()
      reads this
    {
      NodeSpec.Consistent(sha, State())
    }

    /** Process start: empty tables, then the stored chain and root table are read. */
    constructor (sha: Sha256, stored: seq<Block>, records: seq<RootRecord>)
      ensures this.sha == sha
      ensures State() == InitialState(stored, records)
    {
      this.sha := sha;
      chain, rootMap, peers := [], map[], [];
      queue, claims, pending, outbox := map[], map[], map[], [];
      new;
      RetrieveData(stored, records);
    }

    /** `retrieveData`: adopt the stored chain and rebuild the root index from the stored
        records in a fresh map. */
    method RetrieveData(stored: seq<Block>, records: seq<RootRecord>)
      modifies this
      ensures State() == old(State()).(chain := stored, rootMap := RootMapOf(records))
    {
      chain := stored;
      rootMap := map[];
      InitRootMap(records);
    }

    /** `initRootMap`: set every record into the root index, later records winning. */
    method InitRootMap(records: seq<RootRecord>)
      modifies this
      ensures State() == old(State()).(rootMap := old(rootMap) + RootMapOf(records))
    {
      var k := 0;
      while k < |records|
        invariant 0 <= k <= |records|
        invariant rootMap == old(rootMap) + RootMapOf(records[..k])
        invariant State() == old(State()).(rootMap := rootMap)
      {
        var record := records[k];
        assert records[..k + 1][..k] == records[..k];
        assert RootMapOf(records[..k + 1]) == RootMapOf(records[..k])[record.sessionId := record.blockIndex];
        UnionThenSet(old(rootMap), RootMapOf(records[..k]), record.sessionId, record.blockIndex);
        rootMap := rootMap[record.sessionId := record.blockIndex];
        k := k + 1;
      }
      assert records[..k] == records;
    }

    method AddToRootMap(sessionId: string, blockIndex: int)
      modifies this
      ensures State() == old(State()).(rootMap := old(rootMap)[sessionId := blockIndex])
    {
      rootMap := rootMap[sessionId := blockIndex];
    }

    method AddBlock(sessionId: string, b: Block)
      modifies this
      ensures State() == WithBlock(old(State()), sessionId, b)
    {
      chain := chain + [b];
      AddToRootMap(sessionId, b.index);
    }

    /** `send`: a failed send splices the target out of the peer list. */
    method Send(target: Option<PeerId>, m: Message, down: set<PeerId>)
      modifies this
      ensures State() == SendFrom(old(State()), target, m, down)
    {
      if target.Some? && target.value !in down {
        outbox := outbox + [Delivery(target.value, m)];
      } else {
        peers := SpliceOut(peers, target);
      }
    }

    /** `broadcast`: `forEach` over the peer list while failed sends splice it. */
    method Broadcast(m: Message, down: set<PeerId>)
      modifies this
      ensures State() == BroadcastFrom(old(State()), m, down)
    {
      var stop := |peers|;
      var k := 0;
      while k < stop
        invariant 0 <= k <= stop
        invariant ForEachSend(peers, k, stop, m, down).0 == ForEachSend(old(peers), 0, stop, m, down).0
        invariant outbox + ForEachSend(peers, k, stop, m, down).1 == old(outbox) + ForEachSend(old(peers), 0, stop, m, down).1
        invariant State() == old(State()).(peers := peers, outbox := outbox)
        decreases stop - k
      {
        if k < |peers| {
          SendThenContinue(peers, k, stop, m, down, outbox);
          Send(Some(peers[k]), m, down);
        }
        k := k + 1;
      }
    }

    /** POST /addAttendance. */
    method AddAttendance(sessionId: string, attendance: string) returns (resp: Response)
      modifies this
      ensures (State(), resp) == AddAttendanceStep(old(State()), sessionId, attendance)
    {
      if sessionId !in queue {
        return Json("Session " + sessionId + " does not exist!");
      }
      queue := queue[sessionId := queue[sessionId] + [attendance]];
      // logging the queue's length throws: a number has no `charAt`
      resp := ServerError;
    }

    /** POST /addSession; `now` is the current time in whole seconds and `down` the peers
        whose connection fails when written to. */
    method AddSession(state: Option<string>, sessionId: Option<string>, now: int, down: set<PeerId>) returns (resp: Response)
      modifies this
      ensures (State(), resp) == AddSessionStep(sha, old(State()), state, sessionId, now, down)
      ensures old(Consistent()) ==> Consistent()
    {
      if state.None? || state.value == "" || sessionId.None? || sessionId.value == "" {
        return Json("Bad request!");
      }
      if state.value == "begin" {
        resp := BeginSession(sessionId.value);
      } else if state.value == "end" {
        resp := EndSession(sessionId.value, now, down);
      } else {
        resp := Json("Bad request");
      }
    }

    /** The "begin" case of POST /addSession. */
    method BeginSession(sessionId: string) returns (resp: Response)
      modifies this
      ensures (State(), resp) == BeginStep(old(State()), sessionId)
    {
      if IsRecorded(rootMap, sessionId) {
        var latest := LatestBlock(chain);
        if latest.None? {
          return ServerError;
        }
        if rootMap[sessionId] <= latest.value.index {
          return Json("Block for session " + sessionId + " already exists!");
        }
      }
      if sessionId in queue {
        resp := Json("Session " + sessionId + " already began!");
      } else {
        queue := queue[sessionId := []];
        resp := Json("OK");
      }
    }

    /** The "end" case of POST /addSession. */
    method EndSession(sessionId: string, now: int, down: set<PeerId>) returns (resp: Response)
      modifies this
      ensures (State(), resp) == EndStep(sha, old(State()), sessionId, now, down)
      ensures old(Consistent()) ==> Consistent()
    {
      ghost var start := State();
      resp := Json("OK");
      if sessionId in queue {
        var next := CreateNextBlock(sha, chain, queue[sessionId], now);
        if next.Threw? {
          resp := ServerError;
        } else {
          var b := next.value;
          AddBlock(sessionId, b);
          ghost var added := State();
          assert added == WithBlock(start, sessionId, b);
          assert chain[|chain| - 1] == b;
          Broadcast(AddBlockMsg(sessionId, b), down);
          ghost var announced := BroadcastFrom(added, AddBlockMsg(sessionId, b), down);
          assert State() == announced;
          queue := queue - {sessionId};
          assert State() == announced.(queue := announced.queue - {sessionId});
        }
      }
      assert (State(), resp) == EndStep(sha, start, sessionId, now, down);
      if NodeSpec.Consistent(sha, start) {
        EndKeepsConsistent(sha, start, sessionId, now, down);
      }
    }

    /** ADD_BLOCK. Returns Raised when the chain is empty. */
    method HandleBlock(sessionId: string, b: Block, down: set<PeerId>) returns (e: Effect)
      modifies this
      ensures (State(), e) == HandleBlockStep(sha, old(State()), sessionId, b, down)
      ensures old(Consistent()) ==> Consistent()
    {
      ghost var start := State();
      var latest := LatestBlock(chain);
      if latest.None? {
        return Raised;
      }
      if IsNextBlockValid(sha, b, latest.value) {
        AddBlock(sessionId, b);
        assert State() == WithBlock(start, sessionId, b);
      } else {
        Send(FirstPeer(peers), FetchBlockchainMsg, down);
        assert State() == SendFrom(start, FirstPeer(start.peers), FetchBlockchainMsg, down);
      }
      e := Completed;
      assert (State(), e) == HandleBlockStep(sha, start, sessionId, b, down);
      if NodeSpec.Consistent(sha, start) {
        HandleBlockKeepsConsistent(sha, start, sessionId, b, down);
      }
    }

    /** RESPONSE_BLOCKCHAIN. */
    method HandleBlockchain(blocks: seq<Block>)
      modifies this
      ensures State() == HandleBlockchainStep(old(State()), blocks)
    {
      chain := SortByIndex(blocks);
    }

    /** VERIFY_ATTENDANCE. */
    method HandleVerification(sessionId: string, attendance: string, down: set<PeerId>) returns (e: Effect)
      modifies this
      ensures (State(), e) == HandleVerificationStep(old(State()), sessionId, attendance, down)
    {
      var result := VerifyAttendance(chain, rootMap, sessionId, attendance);
      if result.Threw? {
        return Raised;
      }
      Send(FirstPeer(peers), ResponseVerificationMsg(sessionId, attendance, result.value), down);
      e := Completed;
    }

    /** `majorityConfirm`: count the confirming votes for the proof. */
    method MajorityConfirm(attendance: string) returns (confirmed: bool)
      requires attendance in claims
      ensures confirmed <==> IsMajority(claims[attendance])
    {
      var allResults := claims[attendance];
      var confirmations := 0;
      var i := 0;
      while i < |allResults|
        invariant 0 <= i <= |allResults|
        invariant confirmations == Confirmations(allResults[..i])
      {
        assert allResults[..i + 1] == allResults[..i] + [allResults[i]];
        if allResults[i] {
          confirmations := confirmations + 1;
        }
        i := i + 1;
      }
      assert allResults[..i] == allResults;
      // `confirmations > allResults.length / 2` over exact division
      confirmed := 2 * confirmations > |allResults|;
    }

    /** The first half of `handleVerificationResponse`: create the proof's vote list if
        it has none, then push the vote. */
    method RecordVote(attendance: string, vote: bool)
      modifies this
      ensures State() == old(State()).(claims := old(claims)[attendance := VotesWith(old(State()), attendance, vote)])
    {
      if attendance !in claims {
        claims := claims[attendance := []];
      }
      claims := claims[attendance := claims[attendance] + [vote]];
    }

    /** RESPONSE_VERIFICATION. */
    method HandleVerificationResponse(sessionId: string, attendance: string, vote: bool) returns (e: Effect)
      modifies this
      ensures (State(), e) == HandleVerificationResponseStep(old(State()), sessionId, attendance, vote)
    {
      ghost var start := State();
      ghost var votes := VotesWith(start, attendance, vote);
      var numberOfPeers := |peers|;
      RecordVote(attendance, vote);
      if |claims[attendance]| == numberOfPeers {
        if attendance !in pending {
          return Raised;
        }
        var confirmed := MajorityConfirm(attendance);
        assert confirmed == IsMajority(votes);
        e := Answered(pending[attendance], if confirmed then Confirmed else Denied);
        pending := pending - {attendance};
        claims := claims - {attendance};
        assert claims == start.claims - {attendance};
        assert State() == start.(claims := start.claims - {attendance}, pending := start.pending - {attendance});
      } else {
        e := Completed;
      }
    }

    /** `messageHandler` for a message from the connection `from`. */
    method HandleMessage(from: PeerId, m: Message, down: set<PeerId>) returns (e: Effect)
      modifies this
      ensures (State(), e) == HandleMessageStep(sha, old(State()), from, m, down)
    {
      match m {
        case FetchBlockchainMsg =>
          Send(Some(from), ResponseBlockchainMsg(chain), down);
          e := Completed;
        case ResponseBlockchainMsg(blocks) =>
          HandleBlockchain(blocks);
          e := Completed;
        case AddBlockMsg(sessionId, b) =>
          e := HandleBlock(sessionId, b, down);
        case VerifyAttendanceMsg(sessionId, attendance) =>
          e := HandleVerification(sessionId, attendance, down);
        case ResponseVerificationMsg(sessionId, attendance, vote) =>
          e := HandleVerificationResponse(sessionId, attendance, vote);
        case UnknownMsg =>
          e := Completed;
      }
    }

    /** GET /verifyAttendance from the HTTP request `requester`. When it answers Deferred
        the caller arms the timer, whose firing is TimeoutFires(attendance). */
    method VerifyAttendanceMaster(sessionId: string, attendance: string, requester: Requester, down: set<PeerId>) returns (resp: Response)
      modifies this
      ensures (State(), resp) == VerifyAttendanceMasterStep(old(State()), sessionId, attendance, requester, down)
    {
      if !IsRecorded(rootMap, sessionId) {
        return Json("No sessionId: " + sessionId + " found.");
      }
      var blockIndex := rootMap[sessionId];
      if !(0 <= blockIndex < |chain|) {
        return ServerError;
      }
      var found := FindAttendanceInBlock(attendance, chain[blockIndex]);
      if found.Threw? {
        return ServerError;
      }
      if found.value {
        resp := Json(Confirmed);
      } else if |peers| == 0 {
        resp := Json(Denied);
      } else {
        pending := pending[attendance := requester];
        Broadcast(VerifyAttendanceMsg(sessionId, attendance), down);
        resp := Deferred;
      }
    }

    /** The verification timer for `attendance` fires. */
    method TimeoutFires(attendance: string) returns (e: Effect)
      modifies this
      ensures (State(), e) == TimeoutStep(old(State()), attendance)
    {
      if attendance !in claims && attendance in pending {
        e := Answered(pending[attendance], Denied);
        pending := pending - {attendance};
      } else {
        e := Completed;
      }
    }

    /** `initConnection`: register a new connection. */
    method Connect(p: PeerId)
      modifies this
      ensures State() == ConnectStep(old(State()), p)
    {
      peers := peers + [p];
    }

    /** A connection's 'close' handler. */
    method Disconnect(p: PeerId)
      modifies this
      ensures State() == DisconnectStep(old(State()), p)
    {
      peers := SpliceOut(peers, Some(p));
    }
  }
}
