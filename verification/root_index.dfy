/** The root index: which block sealed which session. */
module RootIndex {

  /** One stored row of the root table. */
  datatype RootRecord = RootRecord(sessionId: string, blockIndex: int)

  /** The map built by setting every record in turn into an empty map, so that a later
      record for the same session replaces an earlier one. */
  function RootMapOf(records: seq<RootRecord>): (m: map<string, int>)
    ensures m.Keys == set r | r in records :: r.sessionId
  {
    if records == [] then map[]
    else
      var last := records[|records| - 1];
      assert records == records[..|records| - 1] + [last];
      RootMapOf(records[..|records| - 1])[last.sessionId := last.blockIndex]
  }

  /** The block index recorded for a session is that of the LAST record naming it. */
  lemma {:induction false} LaterRecordWins(records: seq<RootRecord>, i: int)
    requires 0 <= i < |records|
    requires forall j :: i < j < |records| ==> records[j].sessionId != records[i].sessionId
    ensures records[i].sessionId in RootMapOf(records)
    ensures RootMapOf(records)[records[i].sessionId] == records[i].blockIndex
  {
    if i < |records| - 1 {
      var front := records[..|records| - 1];
      assert forall j :: i < j < |front| ==> front[j] == records[j];
      LaterRecordWins(front, i);
    }
  }

  /** JavaScript truthiness of `rootMap.get(sessionId)`: the session is absent, or it is
      recorded at block index 0, exactly when this is false. */
  predicate IsRecorded(rootMap: map<string, int>, sessionId: string)
  {
    sessionId in rootMap && rootMap[sessionId] != 0
  }
}
