/**
 Parent-hash continuity and the rewind on a chain reorganisation
 (indexer/src/cursor.ts). The reply of the RPC is the list `remote`.
 */
module LedgerCursor {
  import opened Wrappers
  import opened Ledger
  import opened Store
  import opened Filters

  const REORG_LOOKBACK_LEDGERS := 1000

  predicate Linked(parent: LedgerCoordinate, child: LedgerCoordinate) {
    child.ledger == parent.ledger + 1 && child.parentHash == parent.hash
  }

  /** Every ledger is linked to the one before it, and the first one to `previous` if there is one. */
  ghost predicate Continuous(ledgers: seq<LedgerCoordinate>, previous: Option<LedgerCoordinate>) {
    && (forall i :: 0 < i < |ledgers| ==> LinkedAt(ledgers, i))
    && (previous.Some? && ledgers != [] ==> Linked(previous.value, ledgers[0]))
  }

  predicate LinkedAt(ledgers: seq<LedgerCoordinate>, i: nat)
    requires 0 < i < |ledgers|
  {
    Linked(ledgers[i - 1], ledgers[i])
  }

  method HasContinuousParentChain(ledgers: seq<LedgerCoordinate>, previous: Option<LedgerCoordinate>)
    returns (r: bool)
    ensures r <==> Continuous(ledgers, previous)
  {
    var parent := previous;
    for i := 0 to |ledgers|
      invariant parent == if i == 0 then previous else Some(ledgers[i - 1])
      invariant forall j :: 0 < j < i ==> LinkedAt(ledgers, j)
      invariant 0 < i && previous.Some? ==> Linked(previous.value, ledgers[0])
    {
      if parent.Some? && !Linked(parent.value, ledgers[i]) {
        assert i > 0 ==> !LinkedAt(ledgers, i);
        return false;
      }
      assert i > 0 ==> LinkedAt(ledgers, i);
      parent := Some(ledgers[i]);
    }
    return true;
  }

  function Between(ledgers: seq<LedgerCoordinate>, lo: int, hi: int): seq<LedgerCoordinate> {
    if ledgers == [] then []
    else (if lo <= ledgers[0].ledger <= hi then [ledgers[0]] else []) + Between(ledgers[1..], lo, hi)
  }

  /** The list holds the ledgers lo..hi, each once, in order. */
  ghost predicate Lists(ledgers: seq<LedgerCoordinate>, lo: int, hi: int) {
    |ledgers| == hi - lo + 1 && forall i :: 0 <= i < |ledgers| ==> ledgers[i].ledger == lo + i
  }

  lemma {:induction false} ChainCountsUp(ledgers: seq<LedgerCoordinate>, previous: Option<LedgerCoordinate>, i: nat)
    requires Continuous(ledgers, previous) && i < |ledgers|
    ensures ledgers[i].ledger == ledgers[0].ledger + i
  {
    if i > 0 {
      ChainCountsUp(ledgers, previous, i - 1);
      assert LinkedAt(ledgers, i);
    }
  }

  // --- The window, in terms of the reply ---

  function InRange(lo: int, hi: int): LedgerCoordinate -> bool {
    (c: LedgerCoordinate) => lo <= c.ledger <= hi
  }

  lemma {:induction false} BetweenFilters(ledgers: seq<LedgerCoordinate>, lo: int, hi: int)
    ensures Filtered(Between(ledgers, lo, hi), ledgers, InRange(lo, hi))
  {
    if ledgers == [] {
      NothingFiltered(InRange(lo, hi));
    } else {
      BetweenFilters(ledgers[1..], lo, hi);
      FilteredPrepends(ledgers[0], Between(ledgers[1..], lo, hi), ledgers[1..], InRange(lo, hi));
      assert [ledgers[0]] + ledgers[1..] == ledgers;
    }
  }

  /** The check that accepts a window accepts it exactly when it lists lo..hi and is parent-linked. */
  lemma AcceptedWindowIsExact(reply: seq<LedgerCoordinate>, lo: int, hi: int, previous: Option<LedgerCoordinate>)
    requires lo <= hi
    ensures var w := Between(reply, lo, hi);
      |w| == hi - lo + 1 && Continuous(w, previous) <==> Lists(w, lo, hi) && Continuous(w, previous)
  {
    var w := Between(reply, lo, hi);
    BetweenFilters(reply, lo, hi);
    forall i | 0 <= i < |w| ensures lo <= w[i].ledger <= hi {
      FilteredHolds(w, reply, InRange(lo, hi), w[i]);
    }
    if |w| == hi - lo + 1 && Continuous(w, previous) {
      forall i | 0 <= i < |w| ensures w[i].ledger == w[0].ledger + i {
        ChainCountsUp(w, previous, i);
      }
      assert w[|w| - 1].ledger == w[0].ledger + (hi - lo);
    }
  }

  /** A reply that has the ledgers lo..hi in one stretch, and none of them elsewhere: that stretch is the window. */
  lemma WindowIsContained(pre: seq<LedgerCoordinate>, w: seq<LedgerCoordinate>, post: seq<LedgerCoordinate>,
                          lo: int, hi: int)
    requires Lists(w, lo, hi)
    requires forall c :: c in pre || c in post ==> !(lo <= c.ledger <= hi)
    ensures Between(pre + w + post, lo, hi) == w
  {
    BetweenFilters(pre + w + post, lo, hi);
    StretchIsFiltered(pre, w, post, InRange(lo, hi));
    FilteredIsUnique(Between(pre + w + post, lo, hi), w, pre + w + post, InRange(lo, hi));
  }

  predicate HasLedger(reply: seq<LedgerCoordinate>, n: int) {
    exists i :: 0 <= i < |reply| && reply[i].ledger == n
  }

  /** The ledgers lo..hi are all in the reply, each once, in ascending order, whatever else is. */
  ghost predicate HoldsInOrder(reply: seq<LedgerCoordinate>, lo: int, hi: int) {
    && (forall n :: lo <= n <= hi ==> HasLedger(reply, n))
    && (forall i, j :: 0 <= i < j < |reply| && lo <= reply[i].ledger <= hi && lo <= reply[j].ledger <= hi ==>
          reply[i].ledger < reply[j].ledger)
  }

  /** Of these ledgers each has the hash of the one before it as its parent hash. */
  ghost predicate LinkedWithin(reply: seq<LedgerCoordinate>, lo: int, hi: int) {
    forall i, j :: 0 <= i < |reply| && 0 <= j < |reply| && lo <= reply[i].ledger < hi ==>
                     (reply[j].ledger == reply[i].ledger + 1 ==> reply[j].parentHash == reply[i].hash)
  }

  lemma PickedInOrder(reply: seq<LedgerCoordinate>, lo: int, hi: int, w: seq<LedgerCoordinate>, at: seq<int>)
    requires Picks(w, reply, InRange(lo, hi), at) && HoldsInOrder(reply, lo, hi)
    ensures forall k :: 0 <= k < |w| ==> lo <= w[k].ledger <= hi
    ensures forall k, l :: 0 <= k < l < |w| ==> w[k].ledger < w[l].ledger
    ensures forall n :: lo <= n <= hi ==> HasLedger(w, n)
  {
    forall k | 0 <= k < |w| ensures lo <= w[k].ledger <= hi {
      assert at[k] in at;
    }
    forall k, l | 0 <= k < l < |w| ensures w[k].ledger < w[l].ledger {
      assert at[k] < at[l] && reply[at[k]] == w[k] && reply[at[l]] == w[l];
    }
    forall n | lo <= n <= hi ensures HasLedger(w, n) {
      assert HasLedger(reply, n);
      var i :| 0 <= i < |reply| && reply[i].ledger == n;
      assert i in at;
      var k :| 0 <= k < |at| && at[k] == i;
      assert w[k].ledger == n;
    }
  }

  lemma {:induction false} AscendingCountsUp(w: seq<LedgerCoordinate>, lo: int, hi: int, k: nat)
    requires forall k :: 0 <= k < |w| ==> lo <= w[k].ledger <= hi
    requires forall k, l :: 0 <= k < l < |w| ==> w[k].ledger < w[l].ledger
    requires forall n :: lo <= n <= hi ==> HasLedger(w, n)
    requires lo + k <= hi
    ensures k < |w| && w[k].ledger == lo + k
  {
    assert HasLedger(w, lo + k);
    var j :| 0 <= j < |w| && w[j].ledger == lo + k;
    if 0 < k {
      AscendingCountsUp(w, lo, hi, k - 1);
      assert k - 1 < j;
    }
    if k < j {
      assert w[k].ledger < w[j].ledger;
    }
  }

  lemma {:induction false} AscendingAtLeast(w: seq<LedgerCoordinate>, lo: int, k: nat)
    requires k < |w| && lo <= w[0].ledger
    requires forall k, l :: 0 <= k < l < |w| ==> w[k].ledger < w[l].ledger
    ensures lo + k <= w[k].ledger
  {
    if 0 < k {
      AscendingAtLeast(w, lo, k - 1);
      assert w[k - 1].ledger < w[k].ledger;
    }
  }

  lemma AscendingIsListed(w: seq<LedgerCoordinate>, lo: int, hi: int)
    requires lo <= hi
    requires forall k :: 0 <= k < |w| ==> lo <= w[k].ledger <= hi
    requires forall k, l :: 0 <= k < l < |w| ==> w[k].ledger < w[l].ledger
    requires forall n :: lo <= n <= hi ==> HasLedger(w, n)
    ensures Lists(w, lo, hi)
  {
    AscendingCountsUp(w, lo, hi, hi - lo);
    AscendingAtLeast(w, lo, |w| - 1);
    forall k | 0 <= k <= hi - lo ensures w[k].ledger == lo + k {
      AscendingCountsUp(w, lo, hi, k);
    }
  }

  lemma InOrderIsListed(w: seq<LedgerCoordinate>, reply: seq<LedgerCoordinate>, lo: int, hi: int)
    requires Filtered(w, reply, InRange(lo, hi)) && lo <= hi && HoldsInOrder(reply, lo, hi)
    ensures Lists(w, lo, hi)
  {
    var at :| Picks(w, reply, InRange(lo, hi), at);
    PickedInOrder(reply, lo, hi, w, at);
    AscendingIsListed(w, lo, hi);
  }

  /** The place of an entry among those picked is its ledger, counted from `lo`. */
  lemma PickedPlace(reply: seq<LedgerCoordinate>, lo: int, hi: int, w: seq<LedgerCoordinate>, at: seq<int>, i: nat)
    requires Picks(w, reply, InRange(lo, hi), at) && Lists(w, lo, hi)
    requires i < |reply| && lo <= reply[i].ledger <= hi
    ensures at[reply[i].ledger - lo] == i
  {
    assert i in at;
    var k :| 0 <= k < |at| && at[k] == i;
    assert w[k] == reply[i];
  }

  lemma ListedHasAll(w: seq<LedgerCoordinate>, reply: seq<LedgerCoordinate>, lo: int, hi: int, n: int)
    requires Filtered(w, reply, InRange(lo, hi)) && Lists(w, lo, hi) && lo <= n <= hi
    ensures HasLedger(reply, n)
  {
    FilteredHolds(w, reply, InRange(lo, hi), w[n - lo]);
    var i :| 0 <= i < |reply| && reply[i] == w[n - lo];
  }

  lemma ListedIsInOrder(w: seq<LedgerCoordinate>, reply: seq<LedgerCoordinate>, lo: int, hi: int)
    requires Filtered(w, reply, InRange(lo, hi)) && Lists(w, lo, hi)
    ensures HoldsInOrder(reply, lo, hi)
  {
    var at :| Picks(w, reply, InRange(lo, hi), at);
    forall n | lo <= n <= hi ensures HasLedger(reply, n) {
      ListedHasAll(w, reply, lo, hi, n);
    }
    forall i, j | 0 <= i < j < |reply| && lo <= reply[i].ledger <= hi && lo <= reply[j].ledger <= hi
      ensures reply[i].ledger < reply[j].ledger
    {
      PickedPlace(reply, lo, hi, w, at, i);
      PickedPlace(reply, lo, hi, w, at, j);
    }
  }

  /** The window lists lo..hi exactly if the reply holds them in order. */
  lemma ListsIffInOrder(reply: seq<LedgerCoordinate>, lo: int, hi: int)
    requires lo <= hi
    ensures Lists(Between(reply, lo, hi), lo, hi) <==> HoldsInOrder(reply, lo, hi)
  {
    var w := Between(reply, lo, hi);
    BetweenFilters(reply, lo, hi);
    if HoldsInOrder(reply, lo, hi) {
      InOrderIsListed(w, reply, lo, hi);
    }
    if Lists(w, lo, hi) {
      ListedIsInOrder(w, reply, lo, hi);
    }
  }

  lemma ListedEntry(w: seq<LedgerCoordinate>, reply: seq<LedgerCoordinate>, lo: int, hi: int, i: nat)
    requires Filtered(w, reply, InRange(lo, hi)) && Lists(w, lo, hi)
    requires i < |reply| && lo <= reply[i].ledger <= hi
    ensures w[reply[i].ledger - lo] == reply[i]
  {
    FilteredHolds(w, reply, InRange(lo, hi), reply[i]);
    var k :| 0 <= k < |w| && w[k] == reply[i];
  }

  lemma WithinIsLinked(w: seq<LedgerCoordinate>, reply: seq<LedgerCoordinate>, lo: int, hi: int, k: nat)
    requires Filtered(w, reply, InRange(lo, hi)) && Lists(w, lo, hi) && LinkedWithin(reply, lo, hi)
    requires 0 < k < |w|
    ensures LinkedAt(w, k)
  {
    FilteredHolds(w, reply, InRange(lo, hi), w[k - 1]);
    FilteredHolds(w, reply, InRange(lo, hi), w[k]);
    var i :| 0 <= i < |reply| && reply[i] == w[k - 1];
    var j :| 0 <= j < |reply| && reply[j] == w[k];
  }

  lemma LinkedIffWithin(w: seq<LedgerCoordinate>, reply: seq<LedgerCoordinate>, lo: int, hi: int)
    requires Filtered(w, reply, InRange(lo, hi)) && Lists(w, lo, hi)
    ensures Continuous(w, None) <==> LinkedWithin(reply, lo, hi)
  {
    if LinkedWithin(reply, lo, hi) {
      forall k | 0 < k < |w| ensures LinkedAt(w, k) {
        WithinIsLinked(w, reply, lo, hi, k);
      }
    }
    if Continuous(w, None) {
      forall i, j | 0 <= i < |reply| && 0 <= j < |reply| && lo <= reply[i].ledger < hi
                    && reply[j].ledger == reply[i].ledger + 1
        ensures reply[j].parentHash == reply[i].hash
      {
        ListedEntry(w, reply, lo, hi, i);
        ListedEntry(w, reply, lo, hi, j);
        assert LinkedAt(w, reply[j].ledger - lo);
      }
    }
  }

  // --- Reconciliation ---

  function ScanStart(ledger: int): int {
    var start := ledger - REORG_LOOKBACK_LEDGERS + 1;
    if start < 1 then 1 else start
  }

  /** Checkpoint rows are stored under their own ledger number. */
  ghost predicate Keyed(m: map<int, LedgerCoordinate>) {
    forall n :: n in m ==> m[n].ledger == n
  }

  /** The checkpoints with lo <= ledger < hi, ascending. */
  function Window(m: map<int, LedgerCoordinate>, lo: int, hi: int): seq<LedgerCoordinate>
    decreases hi - lo
  {
    if hi <= lo then [] else Window(m, lo, hi - 1) + if hi - 1 in m then [m[hi - 1]] else []
  }

  /** A lookup table of the reply: of two entries for one ledger the later wins. */
  function BySequence(remote: seq<LedgerCoordinate>): (m: map<int, LedgerCoordinate>)
    ensures Keyed(m)
  {
    if remote == [] then map[]
    else
      var last := remote[|remote| - 1];
      BySequence(remote[..|remote| - 1])[last.ledger := last]
  }

  predicate Agrees(rpc: map<int, LedgerCoordinate>, c: LedgerCoordinate) {
    c.ledger in rpc && rpc[c.ledger].hash == c.hash && rpc[c.ledger].parentHash == c.parentHash
  }

  /** How many checkpoints agree before the first one that does not. */
  function AgreeingPrefix(persisted: seq<LedgerCoordinate>, rpc: map<int, LedgerCoordinate>): (k: nat)
    ensures k <= |persisted|
    ensures forall i :: 0 <= i < k ==> Agrees(rpc, persisted[i])
    ensures k < |persisted| ==> !Agrees(rpc, persisted[k])
  {
    if persisted == [] || !Agrees(rpc, persisted[0]) then 0 else 1 + AgreeingPrefix(persisted[1..], rpc)
  }

  predicate CursorDiffers(rpc: map<int, LedgerCoordinate>, cursor: Cursor) {
    && KnowsHash(cursor)
    && (|| cursor.ledger !in rpc
        || rpc[cursor.ledger].hash != cursor.hash.value
        || (cursor.parentHash.Some? && rpc[cursor.ledger].parentHash != cursor.parentHash.value))
  }

  predicate Mismatch(persisted: seq<LedgerCoordinate>, rpc: map<int, LedgerCoordinate>, cursor: Cursor) {
    || AgreeingPrefix(persisted, rpc) < |persisted|
    || ((persisted == [] || persisted[|persisted| - 1].ledger != cursor.ledger) && CursorDiffers(rpc, cursor))
  }

  /** The coordinate to return to: the last checkpoint of the agreeing prefix or, without checkpoints, the parent. */
  function CommonCheckpoint(persisted: seq<LedgerCoordinate>, rpc: map<int, LedgerCoordinate>, cursor: Cursor)
    : Option<LedgerCoordinate>
  {
    if persisted != [] then
      var k := AgreeingPrefix(persisted, rpc);
      if k == 0 then None else Some(persisted[k - 1])
    else if cursor.ledger - 1 in rpc && Some(rpc[cursor.ledger - 1].hash) == cursor.parentHash then
      Some(rpc[cursor.ledger - 1])
    else None
  }

  function CursorAt(c: Option<LedgerCoordinate>): Cursor {
    match c
    case Some(x) => Cursor(x.ledger, Some(x.hash), Some(x.parentHash))
    case None => Cursor(0, None, None)
  }

  function UpTo(rows: seq<Row>, n: int): (r: seq<Row>)
    ensures forall row :: row in r <==> row in rows && row.ledger <= n
  {
    if rows == [] then []
    else (if rows[0].ledger <= n then [rows[0]] else []) + UpTo(rows[1..], n)
  }

  function Above(rows: seq<Row>, n: int): (r: seq<Row>)
    ensures forall row :: row in r <==> row in rows && n < row.ledger
  {
    if rows == [] then []
    else (if n < rows[0].ledger then [rows[0]] else []) + Above(rows[1..], n)
  }

  /** What a rewind leaves of the tables: the holder table stays as it was. */
  function AfterRewind(t: Tables, n: int): Tables {
    Tables(UpTo(t.mints, n), UpTo(t.transfers, n), UpTo(t.burns, n), t.holders)
  }

  // --- Seeding ---

  function FindLedger(ledgers: seq<LedgerCoordinate>, n: int): Option<LedgerCoordinate> {
    if ledgers == [] then None
    else if ledgers[0].ledger == n then Some(ledgers[0])
    else FindLedger(ledgers[1..], n)
  }

  /** Inserts checkpoints, skipping those whose ledger or hash is taken. */
  function AddCheckpoints(m: map<int, LedgerCoordinate>, cs: seq<LedgerCoordinate>): (r: map<int, LedgerCoordinate>)
    requires Keyed(m)
    ensures Keyed(r) && m.Keys <= r.Keys && forall n :: n in m ==> r[n] == m[n]
  {
    if cs == [] then m
    else
      var r, c := AddCheckpoints(m, cs[..|cs| - 1]), cs[|cs| - 1];
      if c.ledger in r || exists n :: n in r && r[n].hash == c.hash then r else r[c.ledger := c]
  }

  function NotAfter(ledgers: seq<LedgerCoordinate>, n: int): seq<LedgerCoordinate> {
    if ledgers == [] then []
    else (if ledgers[0].ledger <= n then [ledgers[0]] else []) + NotAfter(ledgers[1..], n)
  }

  predicate KnowsHash(cursor: Cursor) {
    cursor.hash.Some? && cursor.hash.value != ""
  }

  /** What seeding makes of the checkpoints and the cursor. */
  function Seeded(m: map<int, LedgerCoordinate>, cursor: Cursor, remote: seq<LedgerCoordinate>)
    : (r: (map<int, LedgerCoordinate>, Cursor))
    requires Keyed(m)
    ensures Keyed(r.0) && r.1.ledger == cursor.ledger
  {
    var coordinates := NotAfter(remote, cursor.ledger);
    var found := FindLedger(coordinates, cursor.ledger);
    FindLedgerFinds(coordinates, cursor.ledger);
    if cursor.ledger <= 0 || KnowsHash(cursor) || found.None? then (m, cursor)
    else (AddCheckpoints(m, coordinates), CursorAt(found))
  }

  /** Gives a cursor without a hash the coordinates that the RPC reports for it, and stores those before it. */
  method SeedLedgerCheckpoints(db: Database, remote: seq<LedgerCoordinate>, cursor: Cursor)
    requires Keyed(db.checkpoints) && db.cursor == Some(cursor)
    modifies db`checkpoints, db`cursor
    ensures (db.checkpoints, db.cursor)
            == (Seeded(old(db.checkpoints), cursor, remote).0, Some(Seeded(old(db.checkpoints), cursor, remote).1))
  {
    if cursor.ledger <= 0 || KnowsHash(cursor) {
      return;
    }
    var coordinates := NotAfter(remote, cursor.ledger);
    var found := FindLedger(coordinates, cursor.ledger);
    if found.None? {
      return;
    }
    db.checkpoints := AddCheckpoints(db.checkpoints, coordinates);
    db.cursor := Some(CursorAt(found));
  }

  lemma {:induction false} FindLedgerFinds(ledgers: seq<LedgerCoordinate>, n: int)
    ensures FindLedger(ledgers, n).Some? ==> FindLedger(ledgers, n).value.ledger == n
  {
    if ledgers != [] {
      FindLedgerFinds(ledgers[1..], n);
    }
  }

  /** Compares the checkpoints of the scan window, and then the cursor, with the chain of the RPC. */
  method Compare(persisted: seq<LedgerCoordinate>, rpc: map<int, LedgerCoordinate>, cursor: Cursor)
    returns (mismatch: bool, common: Option<LedgerCoordinate>)
    ensures mismatch <==> Mismatch(persisted, rpc, cursor)
    ensures mismatch ==> common == CommonCheckpoint(persisted, rpc, cursor)
  {
    common, mismatch := None, false;
    var i := 0;
    while i < |persisted|
      invariant 0 <= i <= |persisted| && !mismatch
      invariant forall j :: 0 <= j < i ==> Agrees(rpc, persisted[j])
      invariant common == if i == 0 then None else Some(persisted[i - 1])
    {
      if !Agrees(rpc, persisted[i]) {
        mismatch := true;
        break;
      }
      common := Some(persisted[i]);
      i := i + 1;
    }
    assert i == AgreeingPrefix(persisted, rpc);
    if persisted != [] && persisted[|persisted| - 1].ledger != cursor.ledger && CursorDiffers(rpc, cursor) {
      mismatch := true;
    }
    if persisted == [] && CursorDiffers(rpc, cursor) {
      mismatch := true;
      if cursor.ledger - 1 in rpc && Some(rpc[cursor.ledger - 1].hash) == cursor.parentHash {
        common := Some(rpc[cursor.ledger - 1]);
      }
    }
  }

  /** On a mismatch, deletes every row above the common ledger and moves the cursor there. */
  method ReconcileLedgerCursor(db: Database, remote: seq<LedgerCoordinate>, cursor: Cursor) returns (r: int)
    requires Keyed(db.checkpoints)
    modifies db
    ensures Keyed(db.checkpoints)
    ensures var persisted, rpc :=
        Window(old(db.checkpoints), ScanStart(cursor.ledger), cursor.ledger + 1), BySequence(remote);
      if cursor.ledger <= 0 || !Mismatch(persisted, rpc, cursor) then
        r == cursor.ledger && unchanged(db)
      else
        var common := CommonCheckpoint(persisted, rpc, cursor);
        && r == CursorAt(common).ledger
        && db.cursor == Some(CursorAt(common))
        && db.View() == AfterRewind(old(db.View()), r)
        && db.checkpoints == map n | n in old(db.checkpoints) && n <= r :: old(db.checkpoints)[n]
  {
    if cursor.ledger <= 0 {
      return cursor.ledger;
    }
    var persisted := Window(db.checkpoints, ScanStart(cursor.ledger), cursor.ledger + 1);
    var mismatch, common := Compare(persisted, BySequence(remote), cursor);
    if !mismatch {
      return cursor.ledger;
    }
    r := if common.Some? then common.value.ledger else 0;
    db.mints := UpTo(db.mints, r);
    db.burns := UpTo(db.burns, r);
    db.transfers := UpTo(db.transfers, r);
    var stored := db.checkpoints;
    db.checkpoints := map n | n in stored && n <= r :: stored[n];
    db.cursor := Some(CursorAt(common));
  }

  // --- What is stored of a list of checkpoints ---

  predicate HashTaken(m: map<int, LedgerCoordinate>, hash: string) {
    exists n :: n in m && m[n].hash == hash
  }

  lemma {:induction false} AddedComeFrom(m: map<int, LedgerCoordinate>, cs: seq<LedgerCoordinate>, n: int)
    requires Keyed(m) && n in AddCheckpoints(m, cs) && n !in m
    ensures AddCheckpoints(m, cs)[n] in cs
  {
    var last := |cs| - 1;
    if n in AddCheckpoints(m, cs[..last]) {
      AddedComeFrom(m, cs[..last], n);
    }
  }

  /** No checkpoint is passed over without a reason. */
  lemma {:induction false} NothingSkipped(m: map<int, LedgerCoordinate>, cs: seq<LedgerCoordinate>, k: nat)
    requires Keyed(m) && k < |cs|
    ensures var r := AddCheckpoints(m, cs); cs[k].ledger in r || HashTaken(r, cs[k].hash)
  {
    var last := |cs| - 1;
    var before := AddCheckpoints(m, cs[..last]);
    if k < last {
      NothingSkipped(m, cs[..last], k);
      if HashTaken(before, cs[k].hash) {
        var n :| n in before && before[n].hash == cs[k].hash;
        assert n in AddCheckpoints(m, cs) && AddCheckpoints(m, cs)[n] == before[n];
      }
    } else if HashTaken(before, cs[k].hash) {
      var n :| n in before && before[n].hash == cs[k].hash;
      assert n in AddCheckpoints(m, cs) && AddCheckpoints(m, cs)[n] == before[n];
    }
  }

  ghost predicate DistinctLedgers(cs: seq<LedgerCoordinate>) {
    forall i, j :: 0 <= i < j < |cs| ==> cs[i].ledger != cs[j].ledger
  }

  /** Neither the table nor an earlier checkpoint that is not in it has the hash. */
  ghost predicate HashIsFree(m: map<int, LedgerCoordinate>, cs: seq<LedgerCoordinate>, k: nat)
    requires k < |cs|
  {
    && (forall n :: n in m ==> m[n].hash != cs[k].hash)
    && (forall j :: 0 <= j < k && cs[j].ledger !in m ==> cs[j].hash != cs[k].hash)
  }

  lemma TakenIffNotFree(m: map<int, LedgerCoordinate>, cs: seq<LedgerCoordinate>, k: nat)
    requires Keyed(m) && DistinctLedgers(cs) && k < |cs|
    ensures HashTaken(AddCheckpoints(m, cs[..k]), cs[k].hash) <==> !HashIsFree(m, cs, k)
  {
    var r := AddCheckpoints(m, cs[..k]);
    if HashTaken(r, cs[k].hash) {
      var n :| n in r && r[n].hash == cs[k].hash;
      if n !in m {
        AddedComeFrom(m, cs[..k], n);
        var j :| 0 <= j < k && cs[j] == r[n];
        assert cs[j].ledger == n;
      }
    }
    if !HashIsFree(m, cs, k) {
      if n :| n in m && m[n].hash == cs[k].hash {
        assert n in r && r[n] == m[n];
      } else {
        var j :| 0 <= j < k && cs[j].ledger !in m && cs[j].hash == cs[k].hash;
        NothingSkipped(m, cs[..k], j);
        if cs[j].ledger in r {
          AddedComeFrom(m, cs[..k], cs[j].ledger);
          var i :| 0 <= i < k && cs[i] == r[cs[j].ledger];
          assert cs[i].ledger == cs[j].ledger;
          assert i == j;
        }
      }
    }
  }

  lemma LastIsNotAddedBefore(m: map<int, LedgerCoordinate>, cs: seq<LedgerCoordinate>)
    requires Keyed(m) && DistinctLedgers(cs) && cs != []
    ensures var last := |cs| - 1;
      cs[last].ledger !in m ==> cs[last].ledger !in AddCheckpoints(m, cs[..last])
  {
    var last := |cs| - 1;
    var before := AddCheckpoints(m, cs[..last]);
    forall n | n in before && n !in m ensures n != cs[last].ledger {
      AddedComeFrom(m, cs[..last], n);
      var i :| 0 <= i < last && cs[i] == before[n];
      assert cs[i].ledger != cs[last].ledger;
    }
  }

  /**
   Of checkpoints with different numbers, one whose number is not stored yet is stored
   exactly if its hash is neither in the table nor that of an earlier one of them.
   */
  lemma {:induction false} StoredIffHashIsFree(m: map<int, LedgerCoordinate>, cs: seq<LedgerCoordinate>, k: nat)
    requires Keyed(m) && DistinctLedgers(cs) && k < |cs| && cs[k].ledger !in m
    ensures var r := AddCheckpoints(m, cs);
      && (cs[k].ledger in r <==> HashIsFree(m, cs, k))
      && (cs[k].ledger in r ==> r[cs[k].ledger] == cs[k])
  {
    var last := |cs| - 1;
    var before := AddCheckpoints(m, cs[..last]);
    if k < last {
      StoredIffHashIsFree(m, cs[..last], k);
      assert HashIsFree(m, cs, k) <==> HashIsFree(m, cs[..last], k);
    } else {
      TakenIffNotFree(m, cs, k);
      LastIsNotAddedBefore(m, cs);
    }
  }

  // --- What seeding does, in terms of the reply ---

  function UpToLedger(n: int): LedgerCoordinate -> bool {
    (c: LedgerCoordinate) => c.ledger <= n
  }

  lemma {:induction false} NotAfterFilters(ledgers: seq<LedgerCoordinate>, n: int)
    ensures Filtered(NotAfter(ledgers, n), ledgers, UpToLedger(n))
  {
    if ledgers == [] {
      NothingFiltered(UpToLedger(n));
    } else {
      NotAfterFilters(ledgers[1..], n);
      FilteredPrepends(ledgers[0], NotAfter(ledgers[1..], n), ledgers[1..], UpToLedger(n));
      assert [ledgers[0]] + ledgers[1..] == ledgers;
    }
  }

  /** The first ledger with that number stands at `i`. */
  ghost predicate IsFirst(reply: seq<LedgerCoordinate>, i: int, n: int) {
    0 <= i < |reply| && reply[i].ledger == n && forall j :: 0 <= j < i ==> reply[j].ledger != n
  }

  lemma {:induction false} FoundIsFirst(reply: seq<LedgerCoordinate>, i: int, n: int)
    requires IsFirst(reply, i, n)
    ensures FindLedger(reply, n) == Some(reply[i])
  {
    if 0 < i {
      FoundIsFirst(reply[1..], i - 1, n);
    }
  }

  lemma HasLedgerCons(c: LedgerCoordinate, reply: seq<LedgerCoordinate>, n: int)
    ensures HasLedger([c] + reply, n) <==> c.ledger == n || HasLedger(reply, n)
  {
    var all := [c] + reply;
    assert all[0] == c;
    if HasLedger(reply, n) {
      var i :| 0 <= i < |reply| && reply[i].ledger == n;
      assert all[i + 1].ledger == n;
    }
  }

  lemma {:induction false} FoundIffThere(reply: seq<LedgerCoordinate>, n: int)
    ensures FindLedger(reply, n).Some? <==> HasLedger(reply, n)
    ensures HasLedger(reply, n) ==> exists i :: IsFirst(reply, i, n)
  {
    if reply != [] {
      FoundIffThere(reply[1..], n);
      HasLedgerCons(reply[0], reply[1..], n);
      assert [reply[0]] + reply[1..] == reply;
      if reply[0].ledger == n {
        assert IsFirst(reply, 0, n);
      } else if HasLedger(reply[1..], n) {
        var j :| IsFirst(reply[1..], j, n);
        assert IsFirst(reply, j + 1, n);
      }
    }
  }

  lemma {:induction false} FoundAmongEarlier(reply: seq<LedgerCoordinate>, n: int, k: int)
    requires n <= k
    ensures FindLedger(NotAfter(reply, k), n) == FindLedger(reply, n)
  {
    if reply != [] {
      FoundAmongEarlier(reply[1..], n, k);
      if reply[0].ledger <= k {
        assert ([reply[0]] + NotAfter(reply[1..], k))[1..] == NotAfter(reply[1..], k);
      } else {
        assert [] + NotAfter(reply[1..], k) == NotAfter(reply[1..], k);
      }
    }
  }

  /** Seeding applies to a cursor without a hash whose ledger the reply has. */
  predicate Seeds(cursor: Cursor, reply: seq<LedgerCoordinate>) {
    0 < cursor.ledger && (cursor.hash.None? || cursor.hash.value == "") && HasLedger(reply, cursor.ledger)
  }

  /**
   Seeding gives such a cursor the coordinates that the reply has first for it. Of every
   ledger of the reply up to the cursor the number or the hash is stored then; nothing
   else is added, and nothing stored is changed. Any other cursor is left alone.
   */
  lemma SeedingStores(m: map<int, LedgerCoordinate>, cursor: Cursor, reply: seq<LedgerCoordinate>)
    requires Keyed(m)
    ensures var (r, after) := Seeded(m, cursor, reply);
      if Seeds(cursor, reply) then
        && (forall i :: IsFirst(reply, i, cursor.ledger) ==>
              after == Cursor(cursor.ledger, Some(reply[i].hash), Some(reply[i].parentHash)))
        && (forall i :: 0 <= i < |reply| && reply[i].ledger <= cursor.ledger ==>
              reply[i].ledger in r || HashTaken(r, reply[i].hash))
        && (forall n :: n in r ==> if n in m then r[n] == m[n] else n <= cursor.ledger && r[n] in reply)
        && (forall n :: n in m ==> n in r)
      else r == m && after == cursor
  {
    var cs, p := NotAfter(reply, cursor.ledger), UpToLedger(cursor.ledger);
    FoundAmongEarlier(reply, cursor.ledger, cursor.ledger);
    FoundIffThere(reply, cursor.ledger);
    NotAfterFilters(reply, cursor.ledger);
    var r := AddCheckpoints(m, cs);
    forall i | IsFirst(reply, i, cursor.ledger) ensures FindLedger(reply, cursor.ledger) == Some(reply[i]) {
      FoundIsFirst(reply, i, cursor.ledger);
    }
    forall i | 0 <= i < |reply| && reply[i].ledger <= cursor.ledger
      ensures reply[i].ledger in r || HashTaken(r, reply[i].hash)
    {
      FilteredHolds(cs, reply, p, reply[i]);
      var k :| 0 <= k < |cs| && cs[k] == reply[i];
      NothingSkipped(m, cs, k);
    }
    forall n | n in r && n !in m ensures n <= cursor.ledger && r[n] in reply {
      AddedComeFrom(m, cs, n);
      FilteredHolds(cs, reply, p, r[n]);
    }
  }

  // --- What a rewind compares, in terms of the reply ---

  /** The last ledger with that number stands at `i`. */
  ghost predicate IsLast(reply: seq<LedgerCoordinate>, i: int, n: int) {
    0 <= i < |reply| && reply[i].ledger == n && forall j :: i < j < |reply| ==> reply[j].ledger != n
  }

  lemma {:induction false} LookupIsLast(reply: seq<LedgerCoordinate>, n: int)
    ensures n in BySequence(reply) <==> exists i :: IsLast(reply, i, n)
    ensures forall i :: IsLast(reply, i, n) ==> n in BySequence(reply) && BySequence(reply)[n] == reply[i]
  {
    if reply != [] {
      var last := |reply| - 1;
      var before := reply[..last];
      LookupIsLast(before, n);
      if reply[last].ledger == n {
        assert IsLast(reply, last, n);
      } else {
        forall i ensures IsLast(reply, i, n) <==> IsLast(before, i, n) {}
      }
    }
  }

  /** The reply has this very coordinate as its last one with that number. */
  ghost predicate Reported(reply: seq<LedgerCoordinate>, c: LedgerCoordinate) {
    exists i :: IsLast(reply, i, c.ledger) && reply[i] == c
  }

  lemma AgreesIffReported(reply: seq<LedgerCoordinate>, c: LedgerCoordinate)
    ensures Agrees(BySequence(reply), c) <==> Reported(reply, c)
  {
    LookupIsLast(reply, c.ledger);
    if Agrees(BySequence(reply), c) {
      var i :| IsLast(reply, i, c.ledger);
      assert reply[i] == c;
    }
  }

  /** The reply has a ledger of the cursor's number, hash and, if that is saved, parent hash. */
  ghost predicate CursorReported(reply: seq<LedgerCoordinate>, cursor: Cursor) {
    exists i :: IsLast(reply, i, cursor.ledger)
                && cursor.hash == Some(reply[i].hash)
                && (cursor.parentHash == None || cursor.parentHash == Some(reply[i].parentHash))
  }

  lemma DiffersIffNotReported(reply: seq<LedgerCoordinate>, cursor: Cursor)
    requires cursor.hash.Some? && cursor.hash.value != ""
    ensures CursorDiffers(BySequence(reply), cursor) <==> !CursorReported(reply, cursor)
  {
    LookupIsLast(reply, cursor.ledger);
  }

  /**
   The chain has changed: a checkpoint of the last 1000 ledgers is not reported, or the
   cursor is not, if its hash is known and its ledger is not among the checkpoints.
   */
  ghost predicate Forked(m: map<int, LedgerCoordinate>, reply: seq<LedgerCoordinate>, cursor: Cursor)
    requires Keyed(m)
  {
    || (exists n :: n in m && 1 <= n && cursor.ledger - 999 <= n <= cursor.ledger && !Reported(reply, m[n]))
    || (&& cursor.ledger !in m && cursor.hash.Some? && cursor.hash.value != ""
        && !CursorReported(reply, cursor))
  }

  lemma AllAgreeIffReported(m: map<int, LedgerCoordinate>, reply: seq<LedgerCoordinate>, ledger: int)
    requires Keyed(m) && 0 < ledger
    ensures AllAgree(m, BySequence(reply), ScanStart(ledger), ledger)
            <==> !exists n :: n in m && 1 <= n && ledger - 999 <= n <= ledger && !Reported(reply, m[n])
  {
    forall n | n in m ensures Agrees(BySequence(reply), m[n]) <==> Reported(reply, m[n]) {
      AgreesIffReported(reply, m[n]);
    }
  }

  lemma MismatchIffDiffers(m: map<int, LedgerCoordinate>, rpc: map<int, LedgerCoordinate>, cursor: Cursor)
    requires Keyed(m) && 0 < cursor.ledger
    ensures Mismatch(Window(m, ScanStart(cursor.ledger), cursor.ledger + 1), rpc, cursor)
            <==> !AllAgree(m, rpc, ScanStart(cursor.ledger), cursor.ledger)
                 || (cursor.ledger !in m && CursorDiffers(rpc, cursor))
  {
    var lo, hi := ScanStart(cursor.ledger), cursor.ledger;
    var w := Window(m, lo, hi + 1);
    WindowIsSorted(m, lo, hi + 1);
    PrefixIsAllIff(m, rpc, lo, hi, w);
    if hi in m {
      LastIsNewest(w, m, lo, hi + 1);
    } else if w != [] {
      assert w[|w| - 1].ledger in m;
    }
  }

  lemma CompareIffForked(m: map<int, LedgerCoordinate>, reply: seq<LedgerCoordinate>, cursor: Cursor)
    requires Keyed(m) && 0 < cursor.ledger
    ensures Mismatch(Window(m, ScanStart(cursor.ledger), cursor.ledger + 1), BySequence(reply), cursor)
            <==> Forked(m, reply, cursor)
  {
    MismatchIffDiffers(m, BySequence(reply), cursor);
    AllAgreeIffReported(m, reply, cursor.ledger);
    if KnowsHash(cursor) {
      DiffersIffNotReported(reply, cursor);
    }
  }

  lemma {:induction false} NoWindow(m: map<int, LedgerCoordinate>, lo: int, hi: int)
    requires forall n :: n in m ==> !(lo <= n < hi)
    ensures Window(m, lo, hi) == []
    decreases hi - lo
  {
    if lo < hi {
      NoWindow(m, lo, hi - 1);
      assert lo <= hi - 1 < hi;
    }
  }

  /** The parent of the cursor, as the reply has it. */
  ghost predicate IsParent(reply: seq<LedgerCoordinate>, cursor: Cursor, i: int) {
    IsLast(reply, i, cursor.ledger - 1) && cursor.parentHash == Some(reply[i].hash)
  }

  /** Without a checkpoint in the last 1000 ledgers a rewind goes to the parent, if that is reported, and else to 0. */
  lemma RewindWithoutCheckpoints(m: map<int, LedgerCoordinate>, reply: seq<LedgerCoordinate>, cursor: Cursor)
    requires Keyed(m) && 0 < cursor.ledger
    requires forall n :: n in m && 1 <= n ==> !(cursor.ledger - 999 <= n <= cursor.ledger)
    ensures var back := RewindCursor(m, BySequence(reply), cursor);
      && (forall i :: IsParent(reply, cursor, i) ==>
            back == Cursor(cursor.ledger - 1, Some(reply[i].hash), Some(reply[i].parentHash)))
      && (!(exists i :: IsParent(reply, cursor, i)) ==> back == Cursor(0, None, None))
  {
    NoWindow(m, ScanStart(cursor.ledger), cursor.ledger + 1);
    LookupIsLast(reply, cursor.ledger - 1);
    if cursor.ledger - 1 in BySequence(reply) {
      var i :| IsLast(reply, i, cursor.ledger - 1);
      assert IsParent(reply, cursor, i) <==> Some(reply[i].hash) == cursor.parentHash;
    }
  }

  /** With one it saves the coordinates of the checkpoint to which it goes. */
  lemma RewindSavesCheckpoint(m: map<int, LedgerCoordinate>, rpc: map<int, LedgerCoordinate>, cursor: Cursor)
    requires Keyed(m) && Window(m, ScanStart(cursor.ledger), cursor.ledger + 1) != []
    ensures var back := RewindCursor(m, rpc, cursor);
      if back.ledger == 0 then back == Cursor(0, None, None)
      else back.ledger in m && back == Cursor(back.ledger, Some(m[back.ledger].hash), Some(m[back.ledger].parentHash))
  {
    WindowIsSorted(m, ScanStart(cursor.ledger), cursor.ledger + 1);
  }

  // --- What a rewind leaves of the rows ---

  function RowUpTo(n: int): Row -> bool {
    (row: Row) => row.ledger <= n
  }

  /** A rewind keeps the rows up to the common ledger, each of them and in their order. */
  lemma {:induction false} RewindKeepsRows(rows: seq<Row>, n: int)
    ensures Filtered(UpTo(rows, n), rows, RowUpTo(n))
  {
    if rows == [] {
      NothingFiltered(RowUpTo(n));
    } else {
      RewindKeepsRows(rows[1..], n);
      FilteredPrepends(rows[0], UpTo(rows[1..], n), rows[1..], RowUpTo(n));
      assert [rows[0]] + rows[1..] == rows;
    }
  }

  // --- Which ledger the rewind finds ---

  ghost predicate SortedWindow(w: seq<LedgerCoordinate>, m: map<int, LedgerCoordinate>, lo: int, hi: int) {
    && (forall i :: 0 <= i < |w| ==> lo <= w[i].ledger < hi && w[i].ledger in m && m[w[i].ledger] == w[i])
    && (forall i, j :: 0 <= i < j < |w| ==> w[i].ledger < w[j].ledger)
    && (forall n :: lo <= n < hi && n in m ==> m[n] in w)
  }

  lemma {:induction false} WindowIsSorted(m: map<int, LedgerCoordinate>, lo: int, hi: int)
    requires Keyed(m)
    ensures SortedWindow(Window(m, lo, hi), m, lo, hi)
    decreases hi - lo
  {
    if lo < hi {
      WindowIsSorted(m, lo, hi - 1);
      var v, w := Window(m, lo, hi - 1), Window(m, lo, hi);
      assert forall i :: 0 <= i < |v| ==> w[i] == v[i];
      assert hi - 1 in m ==> w == v + [m[hi - 1]] && m[hi - 1].ledger == hi - 1;
      forall n | lo <= n < hi && n in m ensures m[n] in w {
        assert n == hi - 1 || m[n] in v;
      }
    }
  }

  /** The ledger of the last of the first k checkpoints, 0 if there are none. */
  function LastLedger(w: seq<LedgerCoordinate>, k: nat): int
    requires k <= |w|
  {
    if k == 0 then 0 else w[k - 1].ledger
  }

  /** In an ascending window the checkpoints at or below the k-th are the first k. */
  lemma FirstKIffUpTo(w: seq<LedgerCoordinate>, k: nat, i: nat)
    requires k <= |w| && i < |w|
    requires forall i :: 0 <= i < |w| ==> 0 < w[i].ledger
    requires forall i, j :: 0 <= i < j < |w| ==> w[i].ledger < w[j].ledger
    ensures i < k <==> w[i].ledger <= LastLedger(w, k)
  {
    if i < k - 1 {
      assert w[i].ledger < w[k - 1].ledger;
    } else if k <= i && k > 0 {
      assert w[k - 1].ledger < w[i].ledger;
    }
  }

  lemma CommonIsLastOfPrefix(w: seq<LedgerCoordinate>, rpc: map<int, LedgerCoordinate>, cursor: Cursor)
    requires w != []
    ensures CursorAt(CommonCheckpoint(w, rpc, cursor)).ledger == LastLedger(w, AgreeingPrefix(w, rpc))
  {
  }

  lemma IndexInWindow(w: seq<LedgerCoordinate>, m: map<int, LedgerCoordinate>, lo: int, hi: int, n: int)
    returns (i: nat)
    requires SortedWindow(w, m, lo, hi) && Keyed(m) && lo <= n < hi && n in m
    ensures i < |w| && w[i].ledger == n
  {
    assert m[n] in w;
    i :| 0 <= i < |w| && w[i] == m[n];
  }

  /** All checkpoints from `lo` up to `n` agree. */
  ghost predicate AllAgree(m: map<int, LedgerCoordinate>, rpc: map<int, LedgerCoordinate>, lo: int, n: int) {
    forall k :: lo <= k <= n && k in m ==> Agrees(rpc, m[k])
  }

  /** No checkpoint agrees behind one that does not. */
  ghost predicate AgreementClosed(m: map<int, LedgerCoordinate>, rpc: map<int, LedgerCoordinate>, lo: int, hi: int) {
    forall n :: lo <= n <= hi && n in m && Agrees(rpc, m[n]) ==> AllAgree(m, rpc, lo, n)
  }

  /** r is a checkpoint or 0, and the checkpoints of lo..hi at or below r are exactly those that agree. */
  ghost predicate GreatestAgreeing(m: map<int, LedgerCoordinate>, rpc: map<int, LedgerCoordinate>,
                                   lo: int, hi: int, r: int)
  {
    && (r == 0 || (lo <= r <= hi && r in m))
    && (forall n :: lo <= n <= hi && n in m ==> (Agrees(rpc, m[n]) <==> n <= r))
  }

  /** The cursor to which a mismatch leads back, and its ledger. */
  function RewindCursor(m: map<int, LedgerCoordinate>, rpc: map<int, LedgerCoordinate>, cursor: Cursor): Cursor {
    CursorAt(CommonCheckpoint(Window(m, ScanStart(cursor.ledger), cursor.ledger + 1), rpc, cursor))
  }

  function RewindTarget(m: map<int, LedgerCoordinate>, rpc: map<int, LedgerCoordinate>, cursor: Cursor): int {
    RewindCursor(m, rpc, cursor).ledger
  }

  lemma InOrder(w: seq<LedgerCoordinate>, m: map<int, LedgerCoordinate>, lo: int, hi: int, i: nat, j: nat)
    requires SortedWindow(w, m, lo, hi) && i < |w| && j < |w|
    ensures i <= j <==> w[i].ledger <= w[j].ledger
  {
  }

  lemma FirstKIffAllAgree(m: map<int, LedgerCoordinate>, rpc: map<int, LedgerCoordinate>,
                          lo: int, hi: int, w: seq<LedgerCoordinate>, n: int)
    requires Keyed(m) && SortedWindow(w, m, lo, hi + 1) && 0 < lo <= n <= hi && n in m
    ensures n <= LastLedger(w, AgreeingPrefix(w, rpc)) <==> AllAgree(m, rpc, lo, n)
  {
    var i := IndexInWindow(w, m, lo, hi + 1, n);
    var k := AgreeingPrefix(w, rpc);
    FirstKIffUpTo(w, k, i);
    if i < k {
      forall j | lo <= j <= n && j in m ensures Agrees(rpc, m[j]) {
        var l := IndexInWindow(w, m, lo, hi + 1, j);
        InOrder(w, m, lo, hi + 1, l, i);
      }
    } else {
      InOrder(w, m, lo, hi + 1, k, i);
      assert !Agrees(rpc, m[w[k].ledger]);
    }
  }

  /**
   Whatever is stored and whatever the RPC replies: with a checkpoint in the scan window,
   a rewind goes to the last checkpoint up to which all checkpoints of the window agree,
   and to 0 if the first one does not.
   */
  lemma RewindsToAgreeingPrefix(m: map<int, LedgerCoordinate>, rpc: map<int, LedgerCoordinate>, cursor: Cursor)
    requires Keyed(m) && Window(m, ScanStart(cursor.ledger), cursor.ledger + 1) != []
    ensures var lo, hi, r := ScanStart(cursor.ledger), cursor.ledger, RewindTarget(m, rpc, cursor);
      && (r == 0 || (lo <= r <= hi && r in m))
      && forall n :: lo <= n <= hi && n in m ==> (n <= r <==> AllAgree(m, rpc, lo, n))
  {
    var lo, hi := ScanStart(cursor.ledger), cursor.ledger;
    var w := Window(m, lo, hi + 1);
    WindowIsSorted(m, lo, hi + 1);
    CommonIsLastOfPrefix(w, rpc, cursor);
    forall n | lo <= n <= hi && n in m
      ensures n <= LastLedger(w, AgreeingPrefix(w, rpc)) <==> AllAgree(m, rpc, lo, n)
    {
      FirstKIffAllAgree(m, rpc, lo, hi, w, n);
    }
  }

  /** That is the last checkpoint of the scan window that agrees exactly when none agrees behind one that does not. */
  lemma RewindIsGreatestIff(m: map<int, LedgerCoordinate>, rpc: map<int, LedgerCoordinate>, cursor: Cursor)
    requires Keyed(m) && Window(m, ScanStart(cursor.ledger), cursor.ledger + 1) != []
    ensures GreatestAgreeing(m, rpc, ScanStart(cursor.ledger), cursor.ledger, RewindTarget(m, rpc, cursor))
            <==> AgreementClosed(m, rpc, ScanStart(cursor.ledger), cursor.ledger)
  {
    var lo, hi, r := ScanStart(cursor.ledger), cursor.ledger, RewindTarget(m, rpc, cursor);
    RewindsToAgreeingPrefix(m, rpc, cursor);
    GreatestIffClosed(m, rpc, lo, hi, r);
  }

  lemma GreatestIffClosed(m: map<int, LedgerCoordinate>, rpc: map<int, LedgerCoordinate>, lo: int, hi: int, r: int)
    requires r == 0 || (lo <= r <= hi && r in m)
    requires forall n :: lo <= n <= hi && n in m ==> (n <= r <==> AllAgree(m, rpc, lo, n))
    ensures GreatestAgreeing(m, rpc, lo, hi, r) <==> AgreementClosed(m, rpc, lo, hi)
  {
    forall n | lo <= n <= hi && n in m ensures AllAgree(m, rpc, lo, n) ==> Agrees(rpc, m[n]) {}
  }

  /** The reply says of the scan window what `full` says of all ledgers. */
  ghost predicate Reports(rpc: map<int, LedgerCoordinate>, full: map<int, LedgerCoordinate>, lo: int, hi: int) {
    forall n :: lo <= n <= hi ==> (n in rpc <==> n in full) && (n in rpc ==> rpc[n] == full[n])
  }

  lemma ReportedAlike(m: map<int, LedgerCoordinate>, rpc: map<int, LedgerCoordinate>,
                      full: map<int, LedgerCoordinate>, lo: int, hi: int, n: int)
    requires Keyed(m) && Reports(rpc, full, lo, hi) && lo <= n <= hi && n in m
    ensures Agrees(rpc, m[n]) <==> Agrees(full, m[n])
    ensures AllAgree(m, rpc, lo, n) <==> AllAgree(m, full, lo, n)
  {
  }

  /**
   Only the scan window is compared. The rewind finds the last checkpoint of the whole
   table that agrees exactly when no checkpoint agrees behind one that does not, and the
   oldest checkpoint of the window agrees or no older one does.
   */
  lemma RewindIsGreatestOverallIff(m: map<int, LedgerCoordinate>, rpc: map<int, LedgerCoordinate>,
                                   full: map<int, LedgerCoordinate>, cursor: Cursor)
    requires Keyed(m) && Window(m, ScanStart(cursor.ledger), cursor.ledger + 1) != []
    requires Reports(rpc, full, ScanStart(cursor.ledger), cursor.ledger)
    ensures var lo, w := ScanStart(cursor.ledger), Window(m, ScanStart(cursor.ledger), cursor.ledger + 1);
      GreatestAgreeing(m, full, 1, cursor.ledger, RewindTarget(m, rpc, cursor))
      <==> AgreementClosed(m, full, 1, cursor.ledger)
           && (Agrees(full, w[0]) || NoneAgrees(m, full, 1, lo - 1))
  {
    var lo, hi, r := ScanStart(cursor.ledger), cursor.ledger, RewindTarget(m, rpc, cursor);
    var w := Window(m, lo, hi + 1);
    WindowIsSorted(m, lo, hi + 1);
    RewindsToAgreeingPrefix(m, rpc, cursor);
    forall n | lo <= n <= hi && n in m ensures n <= r <==> AllAgree(m, full, lo, n) {
      ReportedAlike(m, rpc, full, lo, hi, n);
    }
    FirstIsOldest(w, m, lo, hi + 1);
    OverallIff(m, full, lo, hi, r, w[0].ledger);
  }

  ghost predicate NoneAgrees(m: map<int, LedgerCoordinate>, rpc: map<int, LedgerCoordinate>, lo: int, hi: int) {
    forall n :: lo <= n <= hi && n in m ==> !Agrees(rpc, m[n])
  }

  lemma FirstIsOldest(w: seq<LedgerCoordinate>, m: map<int, LedgerCoordinate>, lo: int, hi: int)
    requires Keyed(m) && SortedWindow(w, m, lo, hi) && w != []
    ensures var first := w[0].ledger;
      lo <= first < hi && first in m && m[first] == w[0] && forall n :: lo <= n < hi && n in m ==> first <= n
  {
    forall n | lo <= n < hi && n in m ensures w[0].ledger <= n {
      var i := IndexInWindow(w, m, lo, hi, n);
      InOrder(w, m, lo, hi, 0, i);
    }
  }

  lemma OverallIff(m: map<int, LedgerCoordinate>, full: map<int, LedgerCoordinate>,
                   lo: int, hi: int, r: int, first: int)
    requires 1 <= lo && (r == 0 || (lo <= r <= hi && r in m))
    requires forall n :: lo <= n <= hi && n in m ==> (n <= r <==> AllAgree(m, full, lo, n))
    requires lo <= first <= hi && first in m && forall n :: lo <= n <= hi && n in m ==> first <= n
    ensures GreatestAgreeing(m, full, 1, hi, r)
            <==> AgreementClosed(m, full, 1, hi) && (Agrees(full, m[first]) || NoneAgrees(m, full, 1, lo - 1))
  {
    assert AllAgree(m, full, lo, first) <==> Agrees(full, m[first]);
    if AgreementClosed(m, full, 1, hi) && (Agrees(full, m[first]) || NoneAgrees(m, full, 1, lo - 1)) {
      assert Agrees(full, m[first]) ==> AllAgree(m, full, 1, first);
      forall n | lo <= n <= hi && n in m ensures Agrees(full, m[n]) <==> n <= r {
        assert AllAgree(m, full, 1, n) ==> AllAgree(m, full, lo, n);
      }
    }
  }

  /**
   If the saved cursor is a coordinate that the table does not contradict, a mismatch is
   reported exactly when some checkpoint of the scan window or the cursor itself differs.
   */
  lemma MismatchIffSomeDiffers(m: map<int, LedgerCoordinate>, rpc: map<int, LedgerCoordinate>, tip: LedgerCoordinate)
    requires Keyed(m) && 0 < tip.ledger && tip.hash != "" && (tip.ledger in m ==> m[tip.ledger] == tip)
    ensures Mismatch(Window(m, ScanStart(tip.ledger), tip.ledger + 1), rpc, CursorAt(Some(tip)))
            <==> !(AllAgree(m, rpc, ScanStart(tip.ledger), tip.ledger) && Agrees(rpc, tip))
  {
    var lo, hi := ScanStart(tip.ledger), tip.ledger;
    var w := Window(m, lo, hi + 1);
    WindowIsSorted(m, lo, hi + 1);
    PrefixIsAllIff(m, rpc, lo, hi, w);
    CursorDiffersIff(rpc, tip);
    if hi in m {
      LastIsNewest(w, m, lo, hi + 1);
    } else if w != [] {
      assert w[|w| - 1].ledger in m;
    }
  }

  lemma CursorDiffersIff(rpc: map<int, LedgerCoordinate>, tip: LedgerCoordinate)
    requires tip.hash != ""
    ensures CursorDiffers(rpc, CursorAt(Some(tip))) <==> !Agrees(rpc, tip)
  {
  }

  lemma PrefixIsAllIff(m: map<int, LedgerCoordinate>, rpc: map<int, LedgerCoordinate>,
                       lo: int, hi: int, w: seq<LedgerCoordinate>)
    requires Keyed(m) && SortedWindow(w, m, lo, hi + 1)
    ensures AgreeingPrefix(w, rpc) == |w| <==> AllAgree(m, rpc, lo, hi)
  {
    if AgreeingPrefix(w, rpc) == |w| {
      forall n | lo <= n <= hi && n in m ensures Agrees(rpc, m[n]) {
        var i := IndexInWindow(w, m, lo, hi + 1, n);
      }
    }
  }

  lemma LastIsNewest(w: seq<LedgerCoordinate>, m: map<int, LedgerCoordinate>, lo: int, hi: int)
    requires Keyed(m) && SortedWindow(w, m, lo, hi) && lo < hi && hi - 1 in m
    ensures w != [] && w[|w| - 1].ledger == hi - 1
  {
    var i := IndexInWindow(w, m, lo, hi, hi - 1);
    InOrder(w, m, lo, hi, i, |w| - 1);
  }

  lemma PrefixEndsBefore(w: seq<LedgerCoordinate>, k: nat, hi: int)
    requires w != [] && k <= |w| && 0 < hi
    requires forall i :: 0 <= i < |w| ==> w[i].ledger <= hi
    requires forall i, j :: 0 <= i < j < |w| ==> w[i].ledger < w[j].ledger
    requires k == |w| ==> w[|w| - 1].ledger != hi
    ensures LastLedger(w, k) < hi
  {
    if 0 < k < |w| {
      assert w[k - 1].ledger < w[k].ledger;
    }
  }

  /** A rewind always moves the cursor back. */
  lemma RewindGoesBack(m: map<int, LedgerCoordinate>, rpc: map<int, LedgerCoordinate>, cursor: Cursor)
    requires Keyed(m) && Keyed(rpc) && 0 < cursor.ledger
    requires Mismatch(Window(m, ScanStart(cursor.ledger), cursor.ledger + 1), rpc, cursor)
    ensures CursorAt(CommonCheckpoint(Window(m, ScanStart(cursor.ledger), cursor.ledger + 1), rpc, cursor)).ledger
            < cursor.ledger
  {
    var lo, hi := ScanStart(cursor.ledger), cursor.ledger;
    var w := Window(m, lo, hi + 1);
    if w != [] {
      WindowIsSorted(m, lo, hi + 1);
      CommonIsLastOfPrefix(w, rpc, cursor);
      PrefixEndsBefore(w, AgreeingPrefix(w, rpc), hi);
    }
  }

  // --- When agreement is closed ---

  type Chain = int -> LedgerCoordinate

  ghost predicate LinkedChainAt(c: Chain, n: int) {
    Linked(c(n - 1), c(n))
  }

  ghost predicate IsChain(c: Chain, lo: int, hi: int) {
    && (forall n :: lo <= n <= hi ==> c(n).ledger == n)
    && (forall n :: lo < n <= hi ==> LinkedChainAt(c, n))
  }

  /** Two ledgers of equal number and hash have equal parents. */
  ghost predicate CollisionFree(c: Chain, d: Chain, lo: int, hi: int) {
    forall n :: lo <= n <= hi && c(n).hash == d(n).hash ==> c(n).parentHash == d(n).parentHash
  }

  ghost predicate Shared(c: Chain, d: Chain, n: int) {
    c(n).hash == d(n).hash && c(n).parentHash == d(n).parentHash
  }

  /** Chains that agree at one ledger agree at every earlier one. */
  lemma {:induction false} AgreementIsPrefixClosed(c: Chain, d: Chain, lo: int, hi: int, m: int, n: int)
    requires IsChain(c, lo, hi) && IsChain(d, lo, hi) && CollisionFree(c, d, lo, hi)
    requires lo <= m <= n <= hi && Shared(c, d, n)
    ensures Shared(c, d, m)
    decreases n - m
  {
    if m < n {
      assert LinkedChainAt(c, n) && LinkedChainAt(d, n);
      assert c(n - 1).hash == d(n - 1).hash;
      AgreementIsPrefixClosed(c, d, lo, hi, m, n - 1);
    }
  }

  /** The database holds checkpoints of the chain `local`, and the reply covers lo..hi of the chain `remote`. */
  ghost predicate Observes(m: map<int, LedgerCoordinate>, rpc: map<int, LedgerCoordinate>,
                           local: Chain, remote: Chain, lo: int, hi: int)
  {
    && Keyed(m)
    && (forall n :: lo <= n <= hi && n in m ==> m[n] == local(n))
    && (forall n :: lo <= n <= hi ==> n in rpc && rpc[n] == remote(n))
  }

  lemma AgreesIffShared(m: map<int, LedgerCoordinate>, rpc: map<int, LedgerCoordinate>,
                        local: Chain, remote: Chain, lo: int, hi: int, n: int)
    requires Observes(m, rpc, local, remote, lo, hi) && lo <= n <= hi && n in m
    ensures Agrees(rpc, m[n]) <==> Shared(local, remote, n)
  {
  }

  /** Agreement is closed if what is stored is part of one parent-linked chain, with gaps or not. */
  lemma ChainsCloseAgreement(m: map<int, LedgerCoordinate>, rpc: map<int, LedgerCoordinate>,
                             local: Chain, remote: Chain, lo: int, hi: int)
    requires IsChain(local, lo, hi) && IsChain(remote, lo, hi) && CollisionFree(local, remote, lo, hi)
    requires Observes(m, rpc, local, remote, lo, hi)
    ensures AgreementClosed(m, rpc, lo, hi)
  {
    forall n, k | lo <= k <= n <= hi && n in m && k in m && Agrees(rpc, m[n]) ensures Agrees(rpc, m[k]) {
      AgreesIffShared(m, rpc, local, remote, lo, hi, n);
      AgreesIffShared(m, rpc, local, remote, lo, hi, k);
      AgreementIsPrefixClosed(local, remote, lo, hi, k, n);
    }
  }

  /** Neighbouring checkpoints are parent-linked. */
  ghost predicate LinkedTable(m: map<int, LedgerCoordinate>) {
    forall n, k :: n in m && k in m && k == n + 1 ==> Linked(m[n], m[k])
  }

  /** The ledgers lo..hi are all stored, and all replied. */
  ghost predicate WithoutGaps(m: map<int, LedgerCoordinate>, rpc: map<int, LedgerCoordinate>, lo: int, hi: int) {
    forall n :: lo <= n <= hi ==> n in m && n in rpc
  }

  ghost predicate TablesCollisionFree(m: map<int, LedgerCoordinate>, rpc: map<int, LedgerCoordinate>) {
    forall n :: n in m && n in rpc && m[n].hash == rpc[n].hash ==> m[n].parentHash == rpc[n].parentHash
  }

  lemma {:induction false} LinkedTablesAgreeBelow(m: map<int, LedgerCoordinate>, rpc: map<int, LedgerCoordinate>,
                                                  lo: int, k: int, n: int)
    requires Keyed(m) && LinkedTable(m) && LinkedTable(rpc) && TablesCollisionFree(m, rpc)
    requires lo <= k <= n && WithoutGaps(m, rpc, lo, n) && Agrees(rpc, m[n])
    ensures k in m && Agrees(rpc, m[k])
    decreases n - k
  {
    if k < n {
      assert n - 1 in m && n - 1 in rpc && n in m && n in rpc;
      assert Linked(m[n - 1], m[n]) && Linked(rpc[n - 1], rpc[n]);
      LinkedTablesAgreeBelow(m, rpc, lo, k, n - 1);
    }
  }

  /** Agreement is closed if the stored table is linked and has no gaps. */
  lemma LinkedTablesCloseAgreement(m: map<int, LedgerCoordinate>, rpc: map<int, LedgerCoordinate>, lo: int, hi: int)
    requires Keyed(m) && LinkedTable(m) && LinkedTable(rpc) && TablesCollisionFree(m, rpc)
    requires WithoutGaps(m, rpc, lo, hi)
    ensures AgreementClosed(m, rpc, lo, hi)
  {
    forall n, k | lo <= k <= n <= hi && Agrees(rpc, m[n]) ensures Agrees(rpc, m[k]) {
      LinkedTablesAgreeBelow(m, rpc, lo, k, n);
    }
  }

  /** So for checkpoints of one parent-linked chain the rewind goes to the last one that both chains share. */
  lemma RewindsToGreatestShared(m: map<int, LedgerCoordinate>, rpc: map<int, LedgerCoordinate>,
                                local: Chain, remote: Chain, cursor: Cursor)
    requires var lo := ScanStart(cursor.ledger);
      && IsChain(local, lo, cursor.ledger) && IsChain(remote, lo, cursor.ledger)
      && CollisionFree(local, remote, lo, cursor.ledger)
      && Observes(m, rpc, local, remote, lo, cursor.ledger)
    requires Window(m, ScanStart(cursor.ledger), cursor.ledger + 1) != []
    ensures var lo, r := ScanStart(cursor.ledger), RewindTarget(m, rpc, cursor);
      && (r == 0 || (lo <= r <= cursor.ledger && r in m))
      && forall n :: lo <= n <= cursor.ledger && n in m ==> (Shared(local, remote, n) <==> n <= r)
  {
    var lo, hi := ScanStart(cursor.ledger), cursor.ledger;
    ChainsCloseAgreement(m, rpc, local, remote, lo, hi);
    RewindIsGreatestIff(m, rpc, cursor);
    forall n | lo <= n <= hi && n in m ensures Agrees(rpc, m[n]) <==> Shared(local, remote, n) {
      AgreesIffShared(m, rpc, local, remote, lo, hi, n);
    }
  }

  /** And a mismatch is reported exactly when the two chains differ at the cursor. */
  lemma MismatchIffTipDiffers(m: map<int, LedgerCoordinate>, rpc: map<int, LedgerCoordinate>,
                              local: Chain, remote: Chain, hi: int)
    requires 0 < hi && local(hi).hash != ""
    requires var lo := ScanStart(hi);
      && IsChain(local, lo, hi) && IsChain(remote, lo, hi) && CollisionFree(local, remote, lo, hi)
      && Observes(m, rpc, local, remote, lo, hi)
    ensures Mismatch(Window(m, ScanStart(hi), hi + 1), rpc, CursorAt(Some(local(hi)))) <==> !Shared(local, remote, hi)
  {
    var lo := ScanStart(hi);
    MismatchIffSomeDiffers(m, rpc, local(hi));
    if Shared(local, remote, hi) {
      forall n | lo <= n <= hi && n in m ensures Agrees(rpc, m[n]) {
        AgreementIsPrefixClosed(local, remote, lo, hi, n, hi);
        AgreesIffShared(m, rpc, local, remote, lo, hi, n);
      }
    }
  }

  /** A fork 2000 ledgers deep: ledger 1 is stored and shared, yet the rewind goes to 0. */
  lemma DeepForkRewindsToZero()
    ensures
      var old1, old2, new2 :=
        LedgerCoordinate(1, "a", ""), LedgerCoordinate(2000, "b", "x"), LedgerCoordinate(2000, "c", "y");
      var m, rpc := map[1 := old1, 2000 := old2], map[1 := old1, 2000 := new2];
      var cursor := CursorAt(Some(old2));
      var w := Window(m, ScanStart(2000), 2001);
      Mismatch(w, rpc, cursor) && CommonCheckpoint(w, rpc, cursor) == None && Agrees(rpc, m[1])
  {
    var old1, old2, new2 :=
      LedgerCoordinate(1, "a", ""), LedgerCoordinate(2000, "b", "x"), LedgerCoordinate(2000, "c", "y");
    var m, rpc := map[1 := old1, 2000 := old2], map[1 := old1, 2000 := new2];
    var w := Window(m, ScanStart(2000), 2001);
    WindowIsSorted(m, ScanStart(2000), 2001);
    assert m[2000] in w;
    assert w[0] == old2;
    assert !Agrees(rpc, w[0]);
  }

  // --- What the rewind does to the holder table ---

  function RowEvents(rows: seq<Row>): seq<LedgerEvent> {
    if rows == [] then [] else [rows[0].event] + RowEvents(rows[1..])
  }

  function NetOfTables(t: Tables, a: Address): int {
    Net(RowEvents(t.mints), a) + Net(RowEvents(t.transfers), a) + Net(RowEvents(t.burns), a)
  }

  /** The rows that a rewind deletes. */
  function Deleted(t: Tables, n: int): Tables {
    Tables(Above(t.mints, n), Above(t.transfers, n), Above(t.burns, n), map[])
  }

  lemma {:induction false} TagRowEvents(table: Table, rows: seq<Row>)
    ensures Events(Tag(table, rows)) == RowEvents(rows)
  {
    if rows != [] {
      TagRowEvents(table, rows[1..]);
      assert Tag(table, rows)[1..] == Tag(table, rows[1..]);
    }
  }

  lemma NetOfLog(t: Tables, a: Address)
    ensures Net(Events(Log(t)), a) == NetOfTables(t, a)
  {
    var m, f, b := Tag(MintTable, t.mints), Tag(TransferTable, t.transfers), Tag(BurnTable, t.burns);
    TagRowEvents(MintTable, t.mints);
    TagRowEvents(TransferTable, t.transfers);
    TagRowEvents(BurnTable, t.burns);
    EventsConcat(m, f);
    EventsConcat(m + f, b);
    NetConcat(Events(m), Events(f), a);
    NetConcat(Events(m + f), Events(b), a);
  }

  lemma NetCons(row: Row, rows: seq<Row>, a: Address)
    ensures Net(RowEvents([row] + rows), a) == NetOf(row.event, a) + Net(RowEvents(rows), a)
  {
    assert ([row] + rows)[1..] == rows;
  }

  lemma {:induction false} NetSplits(rows: seq<Row>, n: int, a: Address)
    ensures Net(RowEvents(rows), a) == Net(RowEvents(UpTo(rows, n)), a) + Net(RowEvents(Above(rows, n)), a)
  {
    if rows != [] {
      NetSplits(rows[1..], n, a);
      var kept, gone := UpTo(rows[1..], n), Above(rows[1..], n);
      NetCons(rows[0], rows[1..], a);
      NetCons(rows[0], kept, a);
      NetCons(rows[0], gone, a);
      assert rows == [rows[0]] + rows[1..];
      assert UpTo(rows, n) == if rows[0].ledger <= n then [rows[0]] + kept else kept;
      assert Above(rows, n) == if rows[0].ledger <= n then gone else [rows[0]] + gone;
    }
  }

  /** How far the balance of an address is from what the stored rows say. */
  function Drift(t: Tables, a: Address): int {
    MapSums.Get(t.holders, a) - NetOfTables(t, a)
  }

  lemma RewindShiftsDrift(t: Tables, n: int, a: Address)
    ensures Drift(AfterRewind(t, n), a) == Drift(t, a) + NetOfTables(Deleted(t, n), a)
  {
    NetSplits(t.mints, n, a);
    NetSplits(t.transfers, n, a);
    NetSplits(t.burns, n, a);
  }

  lemma {:induction false} NetAppends(rows: seq<Row>, row: Row, a: Address)
    ensures Net(RowEvents(rows + [row]), a) == Net(RowEvents(rows), a) + NetOf(row.event, a)
  {
    if rows == [] {
      assert [row][1..] == [];
    } else {
      NetAppends(rows[1..], row, a);
      NetCons(rows[0], rows[1..], a);
      NetCons(rows[0], rows[1..] + [row], a);
      assert rows == [rows[0]] + rows[1..];
      assert rows + [row] == [rows[0]] + (rows[1..] + [row]);
    }
  }

  lemma AppendShiftsNet(t: Tables, x: Entry, a: Address)
    ensures NetOfTables(t.Append(x.table, x.row), a) == NetOfTables(t, a) + NetOf(x.row.event, a)
  {
    match x.table
    case MintTable => NetAppends(t.mints, x.row, a);
    case TransferTable => NetAppends(t.transfers, x.row, a);
    case BurnTable => NetAppends(t.burns, x.row, a);
  }

  lemma PersistKeepsDrift(t: Tables, x: Entry, a: Address)
    requires NoZeroEntry(t.holders)
    ensures NoZeroEntry(Persist(t, x).holders) && Drift(Persist(t, x), a) == Drift(t, a)
  {
    if !HasKey(t.Rows(x.table), x.row.txHash) {
      AppendShiftsNet(t, x, a);
      ApplyMovesByNet(t.holders, x.row.event, a);
    }
  }

  /** No delivery moves the holder table towards the stored rows or away from them. */
  lemma {:induction false} RunKeepsDrift(t: Tables, ds: seq<Delivery>, a: Address)
    requires NoZeroEntry(t.holders)
    ensures NoZeroEntry(ProcessAll(t, ds).holders) && Drift(ProcessAll(t, ds), a) == Drift(t, a)
  {
    if ds != [] {
      var n := |ds| - 1;
      RunKeepsDrift(t, ds[..n], a);
      if ds[n].asks.Some? {
        PersistKeepsDrift(ProcessAll(t, ds[..n]), ds[n].asks.value, a);
      }
    }
  }

  /** The holder table is the fold of the stored rows. */
  ghost predicate HoldersRight(t: Tables) {
    t.holders == Fold(Events(Log(t))).balances
  }

  lemma HoldersRightIffNoDrift(t: Tables)
    requires NoZeroEntry(t.holders)
    ensures HoldersRight(t) <==> forall a :: Drift(t, a) == 0
  {
    var events := Events(Log(t));
    FoldReflectsNet(events);
    forall a ensures Net(events, a) == NetOfTables(t, a) {
      NetOfLog(t, a);
    }
    if HoldersRight(t) {
      forall a ensures Drift(t, a) == 0 {
        assert MapSums.Get(t.holders, a) == Net(events, a);
      }
    }
    if forall a :: Drift(t, a) == 0 {
      forall a: Address ensures MapSums.Get(t.holders, a) == Net(events, a) {
        assert Drift(t, a) == 0;
      }
      ReflectsIsUnique(t.holders, Fold(events).balances, events, events);
    }
  }

  /** The same, for a drift that is known by other means. */
  lemma HoldersRightIffZero(t: Tables, d: Address -> int)
    requires NoZeroEntry(t.holders) && forall a :: Drift(t, a) == d(a)
    ensures HoldersRight(t) <==> forall a :: d(a) == 0
  {
    HoldersRightIffNoDrift(t);
    if HoldersRight(t) {
      forall a ensures d(a) == 0 {
        assert Drift(t, a) == 0;
      }
    }
  }

  lemma ConsistentHasNoDrift(t: Tables)
    requires Consistent(t)
    ensures NoZeroEntry(t.holders) && forall a :: Drift(t, a) == 0
  {
    FoldReflectsNet(Events(Log(t)));
    HoldersRightIffNoDrift(t);
  }

  /** After a rewind and any later deliveries, each balance is off by exactly the net of the deleted rows. */
  lemma RewindLeavesDrift(t: Tables, n: int, ds: seq<Delivery>, a: Address)
    requires Consistent(t)
    ensures NoZeroEntry(ProcessAll(AfterRewind(t, n), ds).holders)
    ensures Drift(ProcessAll(AfterRewind(t, n), ds), a) == NetOfTables(Deleted(t, n), a)
  {
    ConsistentHasNoDrift(t);
    RewindShiftsDrift(t, n, a);
    RunKeepsDrift(AfterRewind(t, n), ds, a);
  }

  /**
   A rewind deletes rows and keeps the holders. At the rewind and after any later
   deliveries the holder table is the fold of the stored rows exactly when the deleted
   rows cancel out for every address.
   */
  lemma HoldersSurviveRewindIff(t: Tables, n: int, ds: seq<Delivery>)
    requires Consistent(t)
    ensures HoldersRight(ProcessAll(AfterRewind(t, n), ds)) <==> forall a :: NetOfTables(Deleted(t, n), a) == 0
  {
    RewindLeavesDrift(t, n, ds, "");
    forall a ensures Drift(ProcessAll(AfterRewind(t, n), ds), a) == NetOfTables(Deleted(t, n), a) {
      RewindLeavesDrift(t, n, ds, a);
    }
    HoldersRightIffZero(ProcessAll(AfterRewind(t, n), ds), a => NetOfTables(Deleted(t, n), a));
  }

  lemma RewoundRowIsGone(t: Tables, x: Entry, n: int)
    requires UniqueKeys(Log(t)) && x in multiset(Log(t)) && n < x.row.ledger
    ensures !HasKey(AfterRewind(t, n).Rows(x.table), x.row.txHash)
  {
    var rows := t.Rows(x.table);
    var kept := UpTo(rows, n);
    assert AfterRewind(t, n).Rows(x.table) == kept;
    forall i | 0 <= i < |kept| ensures kept[i].txHash != x.row.txHash {
      assert kept[i] in rows && kept[i].ledger <= n;
      LogHolds(t, Entry(x.table, kept[i]));
      assert Entry(x.table, kept[i]) in multiset(Log(t));
      assert !SameKey(x, Entry(x.table, kept[i]));
    }
  }

  /** Every row that a rewind deletes and that is delivered again is counted a second time. */
  lemma RewindThenReplayCountsTwice(t: Tables, x: Entry, n: int, a: Address)
    requires Consistent(t) && x in multiset(Log(t)) && n < x.row.ledger
    ensures MapSums.Get(Persist(AfterRewind(t, n), x).holders, a) == MapSums.Get(t.holders, a) + NetOf(x.row.event, a)
  {
    ConsistentHasNoDrift(t);
    RewoundRowIsGone(t, x, n);
    ApplyMovesByNet(t.holders, x.row.event, a);
  }
}
