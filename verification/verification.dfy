/** Looking an attendance proof up in the local chain, and the majority rule over
    the votes peers send back. */
module Verification {
  import opened Wrappers
  import opened Ledger
  import opened RootIndex

  /** The two answers a verification request can get. */
  const Confirmed: string := "confirmed"
  const Denied: string := "denied"

  /** `items.find(x => x == wanted)`: the first element equal to `wanted`, or `undefined`. */
  function Find(items: seq<string>, wanted: string): (found: Option<string>)
    ensures found.Some? <==> wanted in items
    ensures found.Some? ==> found.value == wanted
  {
    if items == [] then None
    else if items[0] == wanted then Some(items[0])
    else
      assert items == [items[0]] + items[1..];
      Find(items[1..], wanted)
  }

  /** JavaScript truthiness of a found string: `undefined` and "" are false. */
  predicate Truthy(found: Option<string>)
  {
    found.Some? && found.value != ""
  }

  /** Whether `attendance` is among the block's proofs, as `if (found)` decides it: an
      empty proof is never found. The genesis block's attendances are a string, which
      has no `find`, so the lookup throws. */
  function FindAttendanceInBlock(attendance: string, block: Block): (r: Outcome<bool>)
    ensures r.Threw? <==> block.attendances.GenesisMarker?
    ensures r.Ok? ==> (r.value <==> attendance != "" && attendance in block.attendances.proofs)
  {
    match block.attendances
    case GenesisMarker => Threw
    case Proofs(proofs) => Ok(Truthy(Find(proofs, attendance)))
  }

  /** A node's own check: false when the session has no truthy root entry; otherwise
      the lookup in the block at the recorded position, which throws when that position
      is outside the chain or holds the genesis block. */
  function VerifyAttendance(chain: seq<Block>, rootMap: map<string, int>, sessionId: string, attendance: string): (r: Outcome<bool>)
    ensures !IsRecorded(rootMap, sessionId) ==> r == Ok(false)
    ensures IsRecorded(rootMap, sessionId) ==>
      var i := rootMap[sessionId];
      (r.Threw? <==> !(0 <= i < |chain|) || chain[i].attendances.GenesisMarker?) &&
      (r == Ok(true) <==> 0 <= i < |chain| && chain[i].attendances.Proofs? &&
                          attendance != "" && attendance in chain[i].attendances.proofs)
  {
    if !IsRecorded(rootMap, sessionId) then Ok(false)
    else
      var i := rootMap[sessionId];
      if 0 <= i < |chain| then FindAttendanceInBlock(attendance, chain[i]) else Threw
  }

  /** For a session recorded at a block of proofs, the lookup answers whether the
      non-empty proof is among that block's proofs. */
  lemma {:induction false} RecordedBlockLookup(chain: seq<Block>, rootMap: map<string, int>, sessionId: string, proofs: seq<string>, attendance: string)
    requires sessionId in rootMap && 0 < rootMap[sessionId] < |chain|
    requires chain[rootMap[sessionId]].attendances == Proofs(proofs)
    ensures VerifyAttendance(chain, rootMap, sessionId, attendance) == Ok(attendance != "" && attendance in proofs)
  {
  }

  /** The number of votes that are `true`. */
  function Confirmations(votes: seq<bool>): nat
  {
    multiset(votes)[true]
  }

  /** `confirmations > votes.length / 2` with JavaScript's exact division: strictly more
      than half of the votes confirm. */
  predicate IsMajority(votes: seq<bool>)
  {
    2 * Confirmations(votes) > |votes|
  }

  lemma {:induction false} ConfirmationsAllTrue(votes: seq<bool>)
    requires forall i :: 0 <= i < |votes| ==> votes[i]
    ensures Confirmations(votes) == |votes|
  {
    if votes != [] {
      assert votes == votes[..|votes| - 1] + [votes[|votes| - 1]];
      ConfirmationsAllTrue(votes[..|votes| - 1]);
    }
  }

  /** Unanimous confirmation of at least one vote is a majority. */
  lemma {:induction false} UnanimousConfirms(votes: seq<bool>)
    requires |votes| > 0
    requires forall i :: 0 <= i < |votes| ==> votes[i]
    ensures IsMajority(votes)
  {
    ConfirmationsAllTrue(votes);
  }

  /** No votes at all, all-false votes and an exact half split are each no majority. */
  lemma {:induction false} NoMajorityCases(votes: seq<bool>)
    ensures votes == [] ==> !IsMajority(votes)
    ensures (forall i :: 0 <= i < |votes| ==> !votes[i]) ==> !IsMajority(votes)
    ensures 2 * Confirmations(votes) == |votes| ==> !IsMajority(votes)
  {
  }
}
