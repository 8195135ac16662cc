/** The notary's hash-linked chain of attendance blocks: the block record, its hash,
    the genesis block, the successor rule and the ordering used when a peer's chain
    is adopted. */
module Ledger {
  import opened Wrappers

  /** A hash as the node stores it: a hex string (the genesis block's predecessor hash is "0"). */
  type Digest = string

  /** SHA-256 over a string, rendered as hex. The model leaves it as a parameter and
      assumes nothing about it, not even that it is injective. */
  type Sha256 = string -> Digest

  /** The `attendances` field: the string "genesis" in the genesis block, a list of
      attendance proofs in every block a session seals. */
  datatype Attendances = GenesisMarker | Proofs(proofs: seq<string>)

  datatype Block = Block(index: int, attendances: Attendances, prevHash: Digest, timestamp: int, hash: Digest)

  const GenesisText: string := "genesis"
  const GenesisPrevHash: Digest := "0"
  const GenesisTimestamp: int := 1516459421
  /** The text the genesis block's hash is taken over. */
  const GenesisPreimage: string := "0" + GenesisText + GenesisPrevHash + "1516459421"

  /** The decimal digit for `d`. */
  function DigitChar(d: nat): (c: char)
    requires d < 10
    ensures '0' <= c <= '9' && c as int - '0' as int == d
  {
    ('0' as int + d) as char
  }

  /** The number a string of decimal digits stands for, most significant digit first. */
  function NumeralValue(s: string): int
  {
    if s == [] then 0 else 10 * NumeralValue(s[..|s| - 1]) + (s[|s| - 1] as int - '0' as int)
  }

  /** The decimal numeral of a natural number, most significant digit first: it reads
      back as n and has no leading zero. */
  function DecimalString(n: nat): (s: string)
    ensures |s| > 0
    ensures forall i :: 0 <= i < |s| ==> '0' <= s[i] <= '9'
    ensures NumeralValue(s) == n
    ensures s[0] == '0' ==> n == 0
    decreases n
  {
    if n < 10 then [DigitChar(n)]
    else
      var prefix := DecimalString(n / 10);
      var s := prefix + [DigitChar(n % 10)];
      assert s[..|s| - 1] == prefix;
      s
  }

  /** JavaScript's `String(n)` for an integer of magnitude below 10^21 (block indices
      and timestamps in seconds are far below that bound). */
  function NumberToString(n: int): (s: string)
    ensures |s| > 0 && (s[0] == '-' <==> n < 0)
    ensures var digits := if n < 0 then s[1..] else s;
      && |digits| > 0
      && (forall i :: 0 <= i < |digits| ==> '0' <= digits[i] <= '9')
      && (digits[0] == '0' ==> n == 0)
    ensures n >= 0 ==> NumeralValue(s) == n
    ensures n < 0 ==> NumeralValue(s[1..]) == -n
  {
    if n < 0 then
      var digits := DecimalString(-n);
      assert ("-" + digits)[1..] == digits;
      "-" + digits
    else DecimalString(n)
  }

  /** Distinct numbers have distinct texts. */
  lemma {:induction false} NumberToStringInjective(m: int, n: int)
    requires NumberToString(m) == NumberToString(n)
    ensures m == n
  {
  }

  /** JavaScript's `Array.prototype.join` with its default separator ",". */
  function JoinWithCommas(items: seq<string>): string
  {
    if |items| == 0 then ""
    else if |items| == 1 then items[0]
    else JoinWithCommas(items[..|items| - 1]) + "," + items[|items| - 1]
  }

  /** The position of the last comma in `s`, or -1 when there is none. */
  function LastComma(s: string): (i: int)
    ensures -1 <= i < |s|
    ensures i == -1 <==> ',' !in s
    ensures 0 <= i ==> s[i] == ',' && ',' !in s[i + 1..]
  {
    if s == [] then -1
    else if s[|s| - 1] == ',' then |s| - 1
    else
      var front := s[..|s| - 1];
      assert s == front + [s[|s| - 1]];
      var i := LastComma(front);
      if 0 <= i then
        assert s[i + 1..] == front[i + 1..] + [s[|s| - 1]];
        i
      else i
  }

  /** Cuts a text at its commas, the inverse of `JoinWithCommas` for items without one. */
  function SplitOnCommas(s: string): seq<string>
    decreases |s|
  {
    var i := LastComma(s);
    if i < 0 then [s] else SplitOnCommas(s[..i]) + [s[i + 1..]]
  }

  /** The comma that `join` puts before a comma-free last item is the last comma. */
  lemma {:induction false} LastCommaBeforeLastItem(front: string, last: string)
    requires ',' !in last
    ensures LastComma(front + "," + last) == |front|
    decreases |last|
  {
    var s := front + "," + last;
    if last != [] {
      assert s[..|s| - 1] == front + "," + last[..|last| - 1];
      assert last[|last| - 1] in last;
      LastCommaBeforeLastItem(front, last[..|last| - 1]);
    }
  }

  /** Splitting at the comma before a comma-free last item splits off that item. */
  lemma {:induction false} SplitOffLastItem(front: string, last: string)
    requires ',' !in last
    ensures SplitOnCommas(front + "," + last) == SplitOnCommas(front) + [last]
  {
    var s := front + "," + last;
    LastCommaBeforeLastItem(front, last);
    assert s[..|front|] == front && s[|front| + 1..] == last;
  }

  /** Joining two or more items joins all but the last, then a comma and the last. */
  lemma {:induction false} JoinAddsLastItem(items: seq<string>)
    requires |items| > 1
    ensures JoinWithCommas(items) == JoinWithCommas(items[..|items| - 1]) + "," + items[|items| - 1]
  {
  }

  /** A non-empty list of proofs that contain no comma splits back from its joined text
      into exactly those proofs. The hashed text does not determine the proofs in
      general: `CommaTamperingUndetected` shows what a comma inside a proof breaks, and
      the empty list and the list holding one empty proof both join to "". */
  lemma {:induction false} JoinSplitsBack(items: seq<string>)
    requires |items| > 0
    requires forall i :: 0 <= i < |items| ==> ',' !in items[i]
    ensures SplitOnCommas(JoinWithCommas(items)) == items
    decreases |items|
  {
    var last := items[|items| - 1];
    if |items| == 1 {
      assert JoinWithCommas(items) == last;
      assert SplitOnCommas(last) == [last];
    } else {
      var front := items[..|items| - 1];
      forall i | 0 <= i < |front|
        ensures ',' !in front[i]
      {
        assert front[i] == items[i];
      }
      calc {
        SplitOnCommas(JoinWithCommas(items));
        == { JoinAddsLastItem(items); }
        SplitOnCommas(JoinWithCommas(front) + "," + last);
        == { SplitOffLastItem(JoinWithCommas(front), last); }
        SplitOnCommas(JoinWithCommas(front)) + [last];
        == { JoinSplitsBack(front); }
        front + [last];
        == { assert items == front + [last]; }
        items;
      }
    }
  }

  /** How the attendances field turns into text when `+` concatenates it. */
  function AttendancesText(a: Attendances): string
  {
    match a
    case GenesisMarker => GenesisText
    case Proofs(ps) => JoinWithCommas(ps)
  }

  /** The string that is hashed: `index + attendances + prevHash + timestamp` under
      JavaScript's `+`, which turns the number and the array into text and concatenates. */
  function Preimage(index: int, attendances: Attendances, prevHash: Digest, timestamp: int): string
  {
    NumberToString(index) + AttendancesText(attendances) + prevHash + NumberToString(timestamp)
  }

  function CalculateHash(sha: Sha256, index: int, attendances: Attendances, prevHash: Digest, timestamp: int): Digest
  {
    sha(Preimage(index, attendances, prevHash, timestamp))
  }

  function CalculateHashForBlock(sha: Sha256, b: Block): Digest
  {
    CalculateHash(sha, b.index, b.attendances, b.prevHash, b.timestamp)
  }

  /** Two preimages that differ only in the timestamp are different texts: the timestamp
      can be read back from the end of the hashed text. */
  lemma {:induction false} PreimageDistinguishesTimestamps(index: int, attendances: Attendances, prevHash: Digest, t1: int, t2: int)
    requires Preimage(index, attendances, prevHash, t1) == Preimage(index, attendances, prevHash, t2)
    ensures t1 == t2
  {
    var front := NumberToString(index) + AttendancesText(attendances) + prevHash;
    assert Preimage(index, attendances, prevHash, t1)[|front|..] == NumberToString(t1);
    assert Preimage(index, attendances, prevHash, t2)[|front|..] == NumberToString(t2);
    NumberToStringInjective(t1, t2);
  }

  /** The recomputed hash reads the index, attendances, predecessor hash and timestamp,
      never the block's own stored hash, so the stored hash can be checked against it. */
  lemma {:induction false} HashIgnoresStoredHash(sha: Sha256, b: Block, h: Digest)
    ensures CalculateHashForBlock(sha, b.(hash := h)) == CalculateHashForBlock(sha, b)
  {
  }

  /** The fixed first block: index 0, the "genesis" marker, predecessor hash "0" and a
      fixed timestamp, hashed like any other block. */
  function GenesisBlock(sha: Sha256): (g: Block)
    ensures g.index == 0 && g.attendances == GenesisMarker && g.prevHash == GenesisPrevHash
    ensures g.timestamp == GenesisTimestamp && g.hash == sha(GenesisPreimage)
  {
    Block(0, GenesisMarker, GenesisPrevHash, GenesisTimestamp, sha(GenesisPreimage))
  }

  /** Writing one more digit d after the numeral of n gives the numeral of 10 * n + d. */
  lemma {:induction false} AppendDigit(n: nat, d: nat, numeral: string)
    requires 0 < n && d < 10 && DecimalString(n) == numeral
    ensures DecimalString(10 * n + d) == numeral + [DigitChar(d)]
  {
  }

  /** The genesis timestamp as text, built up one digit at a time. */
  lemma {:induction false} GenesisTimestampText()
    ensures NumberToString(GenesisTimestamp) == "1516459421"
  {
    AppendDigit(1, 5, "1");
    AppendDigit(15, 1, "15");
    AppendDigit(151, 6, "151");
    AppendDigit(1516, 4, "1516");
    AppendDigit(15164, 5, "15164");
    AppendDigit(151645, 9, "151645");
    AppendDigit(1516459, 4, "1516459");
    AppendDigit(15164594, 2, "15164594");
    AppendDigit(151645942, 1, "151645942");
  }

  /** The genesis preimage is `0 + "genesis" + "0" + 1516459421` under JavaScript's `+`. */
  lemma {:induction false} GenesisPreimageIsComputed()
    ensures Preimage(0, GenesisMarker, GenesisPrevHash, GenesisTimestamp) == GenesisPreimage
  {
    GenesisTimestampText();
    assert NumberToString(0) == "0";
  }

  /** The genesis block carries the hash calculateHash gives for its own fields. */
  lemma {:induction false} GenesisHashIsCalculated(sha: Sha256)
    ensures GenesisBlock(sha).hash == CalculateHashForBlock(sha, GenesisBlock(sha))
  {
    GenesisPreimageIsComputed();
  }

  /** `blockchain[blockchain.length - 1]`, which is `undefined` on an empty chain. */
  function LatestBlock(chain: seq<Block>): (r: Option<Block>)
    ensures r.Some? <==> |chain| > 0
    ensures r.Some? ==> r.value == chain[|chain| - 1]
  {
    if |chain| == 0 then None else Some(chain[|chain| - 1])
  }

  /** The successor rule, its three checks in the source's order. */
  predicate IsNextBlockValid(sha: Sha256, next: Block, prev: Block)
  {
    if prev.index + 1 != next.index then false
    else if next.prevHash != prev.hash then false
    else if next.hash != CalculateHashForBlock(sha, next) then false
    else true
  }

  /** The block that seals `attendances` on top of `chain` at time `now` (seconds).
      Reading the latest block of an empty chain throws. */
  function CreateNextBlock(sha: Sha256, chain: seq<Block>, attendances: seq<string>, now: int): (r: Outcome<Block>)
    ensures r.Ok? <==> |chain| > 0
    ensures r.Ok? ==> IsNextBlockValid(sha, r.value, chain[|chain| - 1])
    ensures r.Ok? ==> r.value.attendances == Proofs(attendances) && r.value.timestamp == now
  {
    match LatestBlock(chain)
    case None => Threw
    case Some(previous) =>
      var nextIndex := previous.index + 1;
      var nextHash := CalculateHash(sha, nextIndex, Proofs(attendances), previous.hash, now);
      Ok(Block(nextIndex, Proofs(attendances), previous.hash, now, nextHash))
  }

  /** Every block is a valid successor of the block before it. */
  predicate ValidChain(sha: Sha256, chain: seq<Block>)
  {
    forall i :: 0 < i < |chain| ==> IsNextBlockValid(sha, chain[i], chain[i - 1])
  }

  /** A well-formed ledger: it starts with the genesis block and is valid link by link. */
  predicate IsLedger(sha: Sha256, chain: seq<Block>)
  {
    |chain| > 0 && chain[0] == GenesisBlock(sha) && ValidChain(sha, chain)
  }

  /** The successor rule holds exactly when all three checks pass, so failing any one of
      them rejects the block. */
  lemma {:induction false} SuccessorRule(sha: Sha256, next: Block, prev: Block)
    ensures IsNextBlockValid(sha, next, prev) <==>
      next.index == prev.index + 1 && next.prevHash == prev.hash && next.hash == CalculateHashForBlock(sha, next)
  {
  }

  /** A block whose index, predecessor hash or stored hash is altered after creation is
      rejected, whatever SHA-256 computes. */
  lemma {:induction false} TamperedBlockRejected(sha: Sha256, chain: seq<Block>, attendances: seq<string>, now: int, index: int, prevHash: Digest, hash: Digest)
    requires |chain| > 0
    ensures var b := CreateNextBlock(sha, chain, attendances, now).value;
      var prev := chain[|chain| - 1];
      && (index != b.index ==> !IsNextBlockValid(sha, b.(index := index), prev))
      && (prevHash != b.prevHash ==> !IsNextBlockValid(sha, b.(prevHash := prevHash), prev))
      && (hash != b.hash ==> !IsNextBlockValid(sha, b.(hash := hash), prev))
  {
  }

  /** Because the preimage joins the proofs with commas, replacing two proofs x and y by
      the single proof "x,y" leaves the hash unchanged: such a tampered block passes the
      successor rule. */
  lemma {:induction false} CommaTamperingUndetected(sha: Sha256, next: Block, prev: Block, x: string, y: string)
    requires next.attendances == Proofs([x, y])
    requires IsNextBlockValid(sha, next, prev)
    ensures next.(attendances := Proofs([x + "," + y])) != next
    ensures IsNextBlockValid(sha, next.(attendances := Proofs([x + "," + y])), prev)
  {
    var tampered := next.(attendances := Proofs([x + "," + y]));
    assert [x, y][..1] == [x];
    assert JoinWithCommas([x, y]) == x + "," + y == JoinWithCommas([x + "," + y]);
  }

  /** In a ledger every block sits at the position its index names. */
  lemma {:induction false} LedgerPositions(sha: Sha256, chain: seq<Block>, i: int)
    requires IsLedger(sha, chain)
    requires 0 <= i < |chain|
    ensures chain[i].index == i
  {
    if i > 0 {
      LedgerPositions(sha, chain, i - 1);
    }
  }

  /** Appending a valid successor of the latest block keeps a ledger a ledger, and the
      new block's index is its position. */
  lemma {:induction false} AppendValidSuccessor(sha: Sha256, chain: seq<Block>, b: Block)
    requires IsLedger(sha, chain)
    requires IsNextBlockValid(sha, b, chain[|chain| - 1])
    ensures IsLedger(sha, chain + [b])
    ensures b.index == |chain|
  {
    LedgerPositions(sha, chain, |chain| - 1);
    var c := chain + [b];
    forall i | 0 < i < |c|
      ensures IsNextBlockValid(sha, c[i], c[i - 1])
    {
      if i < |chain| {
        assert c[i] == chain[i] && c[i - 1] == chain[i - 1];
      }
    }
  }

  /** Sealing a session on top of a ledger yields a valid successor at the next
      position, so the chain stays a ledger. */
  lemma {:induction false} CreatedBlockExtendsLedger(sha: Sha256, chain: seq<Block>, attendances: seq<string>, now: int)
    requires IsLedger(sha, chain)
    ensures CreateNextBlock(sha, chain, attendances, now).Ok?
    ensures var b := CreateNextBlock(sha, chain, attendances, now).value;
      IsLedger(sha, chain + [b]) && b.index == |chain| && b.prevHash == chain[|chain| - 1].hash
  {
    AppendValidSuccessor(sha, chain, CreateNextBlock(sha, chain, attendances, now).value);
  }

  /** The chain holding the genesis block alone is a ledger. The node itself never builds
      it: it starts from the chain storage returns, and `IsLedger` of that chain is an
      assumption about storage. */
  lemma {:induction false} GenesisIsLedger(sha: Sha256)
    ensures IsLedger(sha, [GenesisBlock(sha)])
  {
  }

  predicate SortedByIndex(chain: seq<Block>)
  {
    forall i, j :: 0 <= i < j < |chain| ==> chain[i].index <= chain[j].index
  }

  /** Inserts `b` after every block whose index is at most its own. */
  function InsertByIndex(sorted: seq<Block>, b: Block): (r: seq<Block>)
    requires SortedByIndex(sorted)
    ensures SortedByIndex(r)
    ensures multiset(r) == multiset(sorted) + multiset{b}
    decreases |sorted|
  {
    if sorted == [] || sorted[|sorted| - 1].index <= b.index then sorted + [b]
    else
      var front := sorted[..|sorted| - 1];
      var last := sorted[|sorted| - 1];
      var inserted := InsertByIndex(front, b);
      InsertedBelowLast(sorted, b, inserted);
      inserted + [last]
  }

  /** Appending the last block of `sorted` behind the other blocks with `b` inserted keeps
      the order and the blocks. */
  lemma {:induction false} InsertedBelowLast(sorted: seq<Block>, b: Block, inserted: seq<Block>)
    requires SortedByIndex(sorted) && |sorted| > 0 && b.index < sorted[|sorted| - 1].index
    requires SortedByIndex(inserted)
    requires multiset(inserted) == multiset(sorted[..|sorted| - 1]) + multiset{b}
    ensures SortedByIndex(inserted + [sorted[|sorted| - 1]])
    ensures multiset(inserted + [sorted[|sorted| - 1]]) == multiset(sorted) + multiset{b}
  {
    var front, last := sorted[..|sorted| - 1], sorted[|sorted| - 1];
    assert sorted == front + [last];
    forall x | x in inserted
      ensures x.index <= last.index
    {
      assert x in multiset(inserted);
      if x != b {
        assert x in multiset(front);
        var k :| 0 <= k < |front| && front[k] == x;
        assert sorted[k] == x;
      }
    }
    var r := inserted + [last];
    forall i, j | 0 <= i < j < |r|
      ensures r[i].index <= r[j].index
    {
      if j == |r| - 1 {
        assert r[i] in inserted;
      } else {
        assert r[i] == inserted[i] && r[j] == inserted[j];
      }
    }
  }

  /** `chain.sort((b1, b2) => b1.index - b2.index)`: the blocks ordered by ascending
      index. Equal indices keep their received order here; engines following ECMAScript 2019
      and later sort stably as well, older ones need not. */
  function SortByIndex(chain: seq<Block>): (r: seq<Block>)
    ensures SortedByIndex(r)
    ensures multiset(r) == multiset(chain)
  {
    if chain == [] then []
    else
      assert chain == chain[..|chain| - 1] + [chain[|chain| - 1]];
      InsertByIndex(SortByIndex(chain[..|chain| - 1]), chain[|chain| - 1])
  }

  /** Dropping the last block of a chain in index order leaves a chain in index order,
      whose own last block has an index at most that of the dropped one. */
  lemma {:induction false} SortedFront(chain: seq<Block>)
    requires SortedByIndex(chain) && chain != []
    ensures var front := chain[..|chain| - 1];
      && SortedByIndex(front)
      && (front == [] || front[|front| - 1].index <= chain[|chain| - 1].index)
  {
    var front := chain[..|chain| - 1];
    forall i, j | 0 <= i < j < |front|
      ensures front[i].index <= front[j].index
    {
      assert front[i] == chain[i] && front[j] == chain[j];
    }
    if front != [] {
      assert front[|front| - 1] == chain[|chain| - 2];
    }
  }

  /** A block whose index is at least the last one's is inserted at the end. */
  lemma {:induction false} InsertAtEnd(sorted: seq<Block>, b: Block)
    requires SortedByIndex(sorted)
    requires sorted == [] || sorted[|sorted| - 1].index <= b.index
    ensures InsertByIndex(sorted, b) == sorted + [b]
  {
  }

  /** A chain that is already in index order is adopted exactly as received. */
  lemma {:induction false} SortedChainUnchanged(chain: seq<Block>)
    requires SortedByIndex(chain)
    ensures SortByIndex(chain) == chain
  {
    if chain != [] {
      var front, last := chain[..|chain| - 1], chain[|chain| - 1];
      SortedFront(chain);
      SortedChainUnchanged(front);
      InsertAtEnd(front, last);
      assert chain == front + [last];
    }
  }

  /** A ledger is in index order. */
  lemma {:induction false} LedgerIsSorted(sha: Sha256, chain: seq<Block>)
    requires IsLedger(sha, chain)
    ensures SortedByIndex(chain)
  {
    forall i, j | 0 <= i < j < |chain|
      ensures chain[i].index <= chain[j].index
    {
      LedgerPositions(sha, chain, i);
      LedgerPositions(sha, chain, j);
    }
  }
}
