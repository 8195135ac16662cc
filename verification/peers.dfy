/** The peer list, the messages peers exchange, and how `send` and `broadcast`
    change the peer list when a send fails. */
module Peers {
  import opened Wrappers
  import opened Ledger

  /** An open connection to another node, known only by identity. */
  type PeerId = nat

  /** The five message kinds of the peer protocol (wire codes 0 to 4, in this order),
      and any message whose type matches none of them. */
  datatype Message =
    | FetchBlockchainMsg
    | ResponseBlockchainMsg(chain: seq<Block>)
    | AddBlockMsg(sessionId: string, block: Block)
    | VerifyAttendanceMsg(sessionId: string, attendance: string)
    | ResponseVerificationMsg(sessionId: string, attendance: string, result: bool)
    | UnknownMsg

  /** A message that reached a peer. */
  datatype Delivery = Delivery(peer: PeerId, message: Message)

  /** `peers.indexOf(p)`: the first position holding `p`, or -1. */
  function IndexOf(peers: seq<PeerId>, p: PeerId): (i: int)
    ensures -1 <= i < |peers|
    ensures i == -1 <==> p !in peers
    ensures 0 <= i ==> peers[i] == p && p !in peers[..i]
  {
    if peers == [] then -1
    else if peers[0] == p then 0
    else
      var j := IndexOf(peers[1..], p);
      assert peers == [peers[0]] + peers[1..];
      if j < 0 then -1 else j + 1
  }

  /** `peers[0]`, which is `undefined` (None) when there are no peers. */
  function FirstPeer(peers: seq<PeerId>): Option<PeerId>
  {
    if peers == [] then None else Some(peers[0])
  }

  /** `peers.splice(peers.indexOf(target), 1)`. The target `undefined` and a peer that is
      no longer listed both give index -1, and `splice(-1, 1)` removes the LAST peer. */
  function SpliceOut(peers: seq<PeerId>, target: Option<PeerId>): (r: seq<PeerId>)
    ensures |r| == if peers == [] then 0 else |peers| - 1
    ensures forall x :: x in r ==> x in peers
    ensures target.Some? && target.value in peers ==>
      multiset(r) == multiset(peers) - multiset{target.value}
    ensures (target.None? || target.value !in peers) && peers != [] ==> r == peers[..|peers| - 1]
  {
    var i := if target.None? then -1 else IndexOf(peers, target.value);
    if 0 <= i then
      assert peers == peers[..i] + [peers[i]] + peers[i + 1..];
      peers[..i] + peers[i + 1..]
    else if peers == [] then []
    else peers[..|peers| - 1]
  }

  /** Removing a listed peer cuts the list at the peer's first occurrence. */
  lemma {:induction false} SpliceOutAt(peers: seq<PeerId>, p: PeerId)
    requires p in peers
    ensures 0 <= IndexOf(peers, p) < |peers|
    ensures SpliceOut(peers, Some(p)) == peers[..IndexOf(peers, p)] + peers[IndexOf(peers, p) + 1..]
  {
  }

  /** Removing a listed peer takes out its first occurrence and keeps every other peer in
      its order. */
  lemma {:induction false} SpliceOutKeepsOrder(peers: seq<PeerId>, p: PeerId)
    requires p in peers
    ensures exists i :: (0 <= i < |peers| && peers[i] == p && p !in peers[..i] &&
      SpliceOut(peers, Some(p)) == peers[..i] + peers[i + 1..])
  {
    var i := IndexOf(peers, p);
    SpliceOutAt(peers, p);
    assert 0 <= i < |peers| && peers[i] == p && p !in peers[..i];
  }

  /** One `send(target, m)`: the message reaches a listed or unlisted peer that is up;
      if the target is down or `undefined`, the send throws inside the `try` and the
      `catch` splices the peer list. Returns the new peer list and what was delivered. */
  function SendEffect(peers: seq<PeerId>, target: Option<PeerId>, m: Message, down: set<PeerId>): (seq<PeerId>, seq<Delivery>)
  {
    if target.Some? && target.value !in down then (peers, [Delivery(target.value, m)])
    else (SpliceOut(peers, target), [])
  }

  /** `peers.forEach(p => send(p, m))` from position `k` on, where `stop` is the length
      the iteration captured when it started. `forEach` skips a position that the array
      no longer has, and a splice during the iteration shifts the later peers down by one. */
  function ForEachSend(peers: seq<PeerId>, k: nat, stop: nat, m: Message, down: set<PeerId>): (seq<PeerId>, seq<Delivery>)
    decreases stop - k
  {
    if stop <= k then (peers, [])
    else if |peers| <= k then ForEachSend(peers, k + 1, stop, m, down)
    else
      var sent := SendEffect(peers, Some(peers[k]), m, down);
      var rest := ForEachSend(sent.0, k + 1, stop, m, down);
      (rest.0, sent.1 + rest.1)
  }

  /** `broadcast(m)` over the whole peer list. */
  function Broadcast(peers: seq<PeerId>, m: Message, down: set<PeerId>): (seq<PeerId>, seq<Delivery>)
  {
    ForEachSend(peers, 0, |peers|, m, down)
  }

  /** The deliveries of `m` to each of `peers`, in order. */
  function DeliveriesTo(peers: seq<PeerId>, m: Message): (ds: seq<Delivery>)
    ensures |ds| == |peers|
    ensures forall i :: 0 <= i < |peers| ==> ds[i] == Delivery(peers[i], m)
  {
    seq(|peers|, i requires 0 <= i < |peers| => Delivery(peers[i], m))
  }

  /** The peers the deliveries reached, in delivery order. */
  function Recipients(ds: seq<Delivery>): seq<PeerId>
  {
    if ds == [] then [] else [ds[0].peer] + Recipients(ds[1..])
  }

  /** The peers at positions `k` and later; none when `k` is past the end. */
  function From(peers: seq<PeerId>, k: nat): seq<PeerId>
  {
    if k <= |peers| then peers[k..] else []
  }

  /** A successful send leaves the peer list alone and delivers exactly one message. */
  lemma {:induction false} SendToLivePeer(peers: seq<PeerId>, p: PeerId, m: Message, down: set<PeerId>)
    requires p !in down
    ensures SendEffect(peers, Some(p), m, down) == (peers, [Delivery(p, m)])
  {
  }

  /** A failing send to a peer that is no longer listed drops the last listed peer, and
      a send to `undefined` (the first peer of an empty list) changes nothing. */
  lemma {:induction false} FailedSendToUnlistedPeer(peers: seq<PeerId>, target: Option<PeerId>, m: Message, down: set<PeerId>)
    requires target.None? || (target.value in down && target.value !in peers)
    ensures peers != [] ==> SendEffect(peers, target, m, down) == (peers[..|peers| - 1], [])
    ensures peers == [] ==> SendEffect(peers, target, m, down) == ([], [])
  {
  }

  lemma {:induction false} ForEachSendAllUp(peers: seq<PeerId>, k: nat, m: Message, down: set<PeerId>)
    requires k <= |peers|
    requires forall p :: p in peers ==> p !in down
    ensures ForEachSend(peers, k, |peers|, m, down) == (peers, DeliveriesTo(peers[k..], m))
    decreases |peers| - k
  {
    if k < |peers| {
      ForEachSendAllUp(peers, k + 1, m, down);
      assert peers[k..] == [peers[k]] + peers[k + 1..];
      assert DeliveriesTo(peers[k..], m) == [Delivery(peers[k], m)] + DeliveriesTo(peers[k + 1..], m);
    }
  }

  /** When no send fails, a broadcast reaches every peer once, in list order, and the
      peer list is unchanged. */
  lemma {:induction false} BroadcastAllUp(peers: seq<PeerId>, m: Message, down: set<PeerId>)
    requires forall p :: p in peers ==> p !in down
    ensures Broadcast(peers, m, down) == (peers, DeliveriesTo(peers, m))
  {
    ForEachSendAllUp(peers, 0, m, down);
  }

  lemma {:induction false} ForEachSendDeliversToLive(peers: seq<PeerId>, k: nat, stop: nat, m: Message, down: set<PeerId>)
    requires k <= stop
    ensures var (final, ds) := ForEachSend(peers, k, stop, m, down);
      && |ds| <= stop - k
      && (forall x :: x in final ==> x in peers)
      && (forall d :: d in ds ==> d.peer in peers && d.peer !in down && d.message == m)
    decreases stop - k
  {
    if k < stop {
      if k < |peers| {
        var sent := SendEffect(peers, Some(peers[k]), m, down);
        assert forall x :: x in sent.0 ==> x in peers;
        assert forall d :: d in sent.1 ==> d.peer in peers && d.peer !in down && d.message == m;
        ForEachSendDeliversToLive(sent.0, k + 1, stop, m, down);
      } else {
        ForEachSendDeliversToLive(peers, k + 1, stop, m, down);
      }
    }
  }

  /** The first occurrence of the peer at position k is at k or before it. */
  lemma {:induction false} FirstOccurrenceAtOrBefore(peers: seq<PeerId>, k: nat)
    requires k < |peers|
    ensures 0 <= IndexOf(peers, peers[k]) <= k
  {
  }

  /** Dropping past the whole front of a concatenation drops into its back. */
  lemma {:induction false} DropPastPrefix(front: seq<PeerId>, back: seq<PeerId>, n: nat)
    requires |front| <= n <= |front| + |back|
    ensures (front + back)[n..] == back[n - |front|..]
  {
  }

  /** Removing the first occurrence of the peer at position k, which lies at or before k,
      shifts the peers after k + 1 down by one: they are the ones that were after k + 2. */
  lemma {:induction false} SpliceShiftsLaterPeers(peers: seq<PeerId>, k: nat)
    requires k < |peers|
    ensures From(SpliceOut(peers, Some(peers[k])), k + 1) == From(peers, k + 2)
  {
    var i := IndexOf(peers, peers[k]);
    FirstOccurrenceAtOrBefore(peers, k);
    var later := peers[i + 1..];
    SpliceOutAt(peers, peers[k]);
    if k + 2 <= |peers| {
      DropPastPrefix(peers[..i], later, k + 1);
      assert later[k + 1 - i..] == peers[k + 2..];
    }
  }

  /** Starting one position later leaves a sub-multiset of the peers. */
  lemma {:induction false} FromShrinks(peers: seq<PeerId>, k: nat)
    ensures multiset(From(peers, k + 1)) <= multiset(From(peers, k))
  {
    if k + 1 <= |peers| {
      assert peers[k..] == [peers[k]] + peers[k + 1..];
    }
  }

  /** So the peers a failed send leaves after k + 1 were all after k + 1 before it. */
  lemma {:induction false} SpliceKeepsLaterPeers(peers: seq<PeerId>, k: nat)
    requires k < |peers|
    ensures multiset(From(SpliceOut(peers, Some(peers[k])), k + 1)) <= multiset(From(peers, k + 1))
  {
    SpliceShiftsLaterPeers(peers, k);
    FromShrinks(peers, k + 1);
  }

  /** The peers from position k on are peer k followed by the peers from k + 1 on. */
  lemma {:induction false} FromSplitsFirst(peers: seq<PeerId>, k: nat)
    requires k < |peers|
    ensures From(peers, k) == [peers[k]] + From(peers, k + 1)
    ensures multiset(From(peers, k)) == multiset{peers[k]} + multiset(From(peers, k + 1))
  {
    assert peers[k..] == [peers[k]] + peers[k + 1..];
  }

  /** The step of `ForEachSendRecipientsBounded` for a send that reaches peer k. */
  lemma {:induction false} LiveSendStep(peers: seq<PeerId>, k: nat, stop: nat, m: Message, down: set<PeerId>)
    requires k < stop && k < |peers| && peers[k] !in down
    requires multiset(Recipients(ForEachSend(peers, k + 1, stop, m, down).1)) <= multiset(From(peers, k + 1))
    ensures multiset(Recipients(ForEachSend(peers, k, stop, m, down).1)) <= multiset(From(peers, k))
  {
    var rest := ForEachSend(peers, k + 1, stop, m, down);
    assert SendEffect(peers, Some(peers[k]), m, down) == (peers, [Delivery(peers[k], m)]);
    assert ForEachSend(peers, k, stop, m, down).1 == [Delivery(peers[k], m)] + rest.1;
    assert ([Delivery(peers[k], m)] + rest.1)[1..] == rest.1;
    FromSplitsFirst(peers, k);
  }

  lemma {:induction false} MultisetSubsetTransitive(a: multiset<PeerId>, b: multiset<PeerId>, c: multiset<PeerId>)
    requires a <= b && b <= c
    ensures a <= c
  {
  }

  /** One position of the iteration: send to peer k, then go on over the resulting list. */
  lemma {:induction false} ForEachSendUnfolds(peers: seq<PeerId>, k: nat, stop: nat, m: Message, down: set<PeerId>)
    requires k < stop && k < |peers|
    ensures var sent := SendEffect(peers, Some(peers[k]), m, down);
      ForEachSend(peers, k, stop, m, down).1 == sent.1 + ForEachSend(sent.0, k + 1, stop, m, down).1
  {
  }

  /** After a failed send to peer k the iteration goes on over the spliced list and
      delivers nothing for position k. */
  lemma {:induction false} FailedSendUnfolds(peers: seq<PeerId>, k: nat, stop: nat, m: Message, down: set<PeerId>)
    requires k < stop && k < |peers| && peers[k] in down
    ensures ForEachSend(peers, k, stop, m, down).1 == ForEachSend(SpliceOut(peers, Some(peers[k])), k + 1, stop, m, down).1
  {
    var r := SpliceOut(peers, Some(peers[k]));
    assert SendEffect(peers, Some(peers[k]), m, down) == (r, []);
    ForEachSendUnfolds(peers, k, stop, m, down);
    var ds := ForEachSend(r, k + 1, stop, m, down).1;
    assert [] + ds == ds;
  }

  /** The step of `ForEachSendRecipientsBounded` for a send to peer k that fails. */
  lemma {:induction false} FailedSendStep(peers: seq<PeerId>, k: nat, stop: nat, m: Message, down: set<PeerId>)
    requires k < stop && k < |peers| && peers[k] in down
    requires var r := SpliceOut(peers, Some(peers[k]));
      multiset(Recipients(ForEachSend(r, k + 1, stop, m, down).1)) <= multiset(From(r, k + 1))
    ensures multiset(Recipients(ForEachSend(peers, k, stop, m, down).1)) <= multiset(From(peers, k))
  {
    var r := SpliceOut(peers, Some(peers[k]));
    var ds := ForEachSend(r, k + 1, stop, m, down).1;
    FailedSendUnfolds(peers, k, stop, m, down);
    SpliceKeepsLaterPeers(peers, k);
    FromSplitsFirst(peers, k);
    var later := multiset(From(peers, k + 1));
    MultisetSubsetTransitive(multiset(Recipients(ds)), multiset(From(r, k + 1)), later);
    MultisetSubsetTransitive(multiset(Recipients(ds)), later, multiset(From(peers, k)));
  }

  /** Each position of the list is visited at most once and peers only move towards the
      front, so the recipients of the sends from position k on are among the peers listed
      at k and later, counted with multiplicity. */
  lemma {:induction false} ForEachSendRecipientsBounded(peers: seq<PeerId>, k: nat, stop: nat, m: Message, down: set<PeerId>)
    ensures multiset(Recipients(ForEachSend(peers, k, stop, m, down).1)) <= multiset(From(peers, k))
    decreases stop - k
  {
    if k < stop {
      if |peers| <= k {
        ForEachSendRecipientsBounded(peers, k + 1, stop, m, down);
      } else if peers[k] !in down {
        ForEachSendRecipientsBounded(peers, k + 1, stop, m, down);
        LiveSendStep(peers, k, stop, m, down);
      } else {
        ForEachSendRecipientsBounded(SpliceOut(peers, Some(peers[k])), k + 1, stop, m, down);
        FailedSendStep(peers, k, stop, m, down);
      }
    }
  }

  /** A broadcast delivers `m` at most once per listed peer (as often as the peer is
      listed), only to peers that were listed and up, and never adds a peer. */
  lemma {:induction false} BroadcastDeliversToLivePeers(peers: seq<PeerId>, m: Message, down: set<PeerId>)
    ensures var (final, ds) := Broadcast(peers, m, down);
      && multiset(Recipients(ds)) <= multiset(peers)
      && (forall p :: multiset(Recipients(ds))[p] <= multiset(peers)[p])
      && (forall x :: x in final ==> x in peers)
      && (forall d :: d in ds ==> d.peer in peers && d.peer !in down && d.message == m)
  {
    ForEachSendDeliversToLive(peers, 0, |peers|, m, down);
    ForEachSendRecipientsBounded(peers, 0, |peers|, m, down);
    assert From(peers, 0) == peers;
  }

  /** The peer right after a failing one is skipped: the splice moves it into the
      position the iteration has just visited, so it receives nothing although it is up. */
  lemma {:induction false} BroadcastSkipsPeerAfterFailure(p: PeerId, q: PeerId, m: Message, down: set<PeerId>)
    requires p != q && p in down && q !in down
    ensures Broadcast([p, q], m, down) == ([q], [])
  {
    var peers := [p, q];
    assert SpliceOut(peers, Some(p)) == [q];
    var sent := SendEffect(peers, Some(peers[0]), m, down);
    assert sent == ([q], []);
    var rest := ForEachSend(sent.0, 1, 2, m, down);
    assert rest == ([q], []);
    assert ForEachSend(peers, 0, 2, m, down) == (rest.0, sent.1 + rest.1);
    assert Broadcast(peers, m, down) == ForEachSend(peers, 0, 2, m, down);
    assert sent.1 + rest.1 == [];
  }
}
