/**
 The indexer's database as far as token events touch it: the mint, transfer
 and burn tables with their unique transaction hashes, the holder table kept
 beside them (indexer/src/aggregates.ts), the ledger checkpoints and the saved
 cursor. Event ingestion is the token part of indexer/src/indexer.ts.
 */
module Store {
  import opened Wrappers
  import opened MapSums
  import opened Permutations
  import opened Ledger

  datatype LedgerCoordinate = LedgerCoordinate(ledger: int, hash: string, parentHash: string)

  datatype Cursor = Cursor(ledger: int, hash: Option<string>, parentHash: Option<string>)

  datatype Table = MintTable | TransferTable | BurnTable

  datatype Row = Row(txHash: string, ledger: int, event: LedgerEvent)

  datatype Tables = Tables(mints: seq<Row>, transfers: seq<Row>, burns: seq<Row>, holders: Balances)
  {
    function Rows(table: Table): seq<Row> {
      match table
      case MintTable => mints
      case TransferTable => transfers
      case BurnTable => burns
    }

    function Append(table: Table, row: Row): Tables {
      match table
      case MintTable => this.(mints := mints + [row])
      case TransferTable => this.(transfers := transfers + [row])
      case BurnTable => this.(burns := burns + [row])
    }
  }

  const EMPTY_TABLES := Tables([], [], [], map[])

  predicate HasKey(rows: seq<Row>, txHash: string) {
    exists i :: 0 <= i < |rows| && rows[i].txHash == txHash
  }

  datatype Field = Account(address: Address) | Amount(amount: int)

  datatype Topic = Symbol(name: string) | Undecodable

  datatype RawEvent = RawEvent(topics: seq<Topic>, fields: seq<Field>, ledger: int, txHash: string)

  /** A stored or storable event: its table and its row. */
  datatype Entry = Entry(table: Table, row: Row)

  function AccountAt(fields: seq<Field>, i: nat): Option<Address> {
    if i < |fields| && fields[i].Account? then Some(fields[i].address) else None
  }

  function AmountAt(fields: seq<Field>, i: nat): Option<int> {
    if i < |fields| && fields[i].Amount? then Some(fields[i].amount) else None
  }

  /** The row a token event asks for; any other topic and any short or mistyped tuple asks for none. */
  function Decode(e: RawEvent): Option<Entry> {
    if e.topics == [] || e.topics[0].Undecodable? then None
    else
      var name := e.topics[0].name;
      if name == "mint" then
        match (AccountAt(e.fields, 1), AmountAt(e.fields, 2))
        case (Some(to), Some(n)) => Some(Entry(MintTable, Row(e.txHash, e.ledger, Mint(to, n))))
        case _ => None
      else if name == "burn" then
        match (AccountAt(e.fields, 0), AmountAt(e.fields, 1))
        case (Some(from), Some(n)) => Some(Entry(BurnTable, Row(e.txHash, e.ledger, Burn(from, n))))
        case _ => None
      else if name == "xfer" then
        match (AccountAt(e.fields, 0), AccountAt(e.fields, 1), AmountAt(e.fields, 2))
        case (Some(from), Some(to), Some(n)) =>
          Some(Entry(TransferTable, Row(e.txHash, e.ledger, Transfer(from, to, n))))
        case _ => None
      else if name == "xfer_frm" then
        match (AccountAt(e.fields, 1), AccountAt(e.fields, 2), AmountAt(e.fields, 3))
        case (Some(from), Some(to), Some(n)) =>
          Some(Entry(TransferTable, Row(e.txHash, e.ledger, Transfer(from, to, n))))
        case _ => None
      else None
  }

  /** A committed insertion: a taken key leaves everything as it is. */
  function Persist(t: Tables, x: Entry): Tables {
    if HasKey(t.Rows(x.table), x.row.txHash) then t
    else t.Append(x.table, x.row).(holders := Moves(t.holders, DeltasFor(x.row.event)))
  }

  /** One delivery: the entry that a raw event asks for, and whether its transaction could go through. */
  datatype Delivery = Delivery(asks: Option<Entry>, committed: bool)

  function Process(t: Tables, d: Delivery): Tables {
    if d.asks.Some? && d.committed then Persist(t, d.asks.value) else t
  }

  function ProcessAll(t: Tables, ds: seq<Delivery>): Tables {
    if ds == [] then t else Process(ProcessAll(t, ds[..|ds| - 1]), ds[|ds| - 1])
  }

  lemma ProcessOneMore(t: Tables, ds: seq<Delivery>, d: Delivery)
    ensures ProcessAll(t, ds + [d]) == Process(ProcessAll(t, ds), d)
  {
    assert (ds + [d])[..|ds|] == ds;
  }

  lemma {:induction false} ProcessConcat(t: Tables, ds: seq<Delivery>, es: seq<Delivery>)
    ensures ProcessAll(t, ds + es) == ProcessAll(ProcessAll(t, ds), es)
  {
    if es == [] {
      assert ds + es == ds;
    } else {
      var n := |es| - 1;
      ProcessConcat(t, ds, es[..n]);
      ProcessOneMore(t, ds + es[..n], es[n]);
      assert ds + es == ds + es[..n] + [es[n]];
    }
  }

  datatype DatabaseError = UniqueViolation | Unavailable

  /** The calls that the aggregates of one event make of the store: one for each delta, and one if the supply moves. */
  function StoreCalls(event: LedgerEvent): nat {
    |DeltasFor(event)| + if SupplyDeltaFor(event) == 0 then 0 else 1
  }

  /** What an event delivers if the database fails at call `fault`: the row to be created comes first. */
  function DeliveryOf(e: RawEvent, fault: nat): Delivery {
    var asks := Decode(e);
    Delivery(asks, asks.None? || StoreCalls(asks.value.row.event) < fault)
  }

  class Database {
    var mints: seq<Row>
    var transfers: seq<Row>
    var burns: seq<Row>
    var holders: Balances
    var checkpoints: map<int, LedgerCoordinate>
    var cursor: Option<Cursor>

    constructor ()
      ensures View() == EMPTY_TABLES && checkpoints == map[] && cursor == None
    {
      mints, transfers, burns, holders := [], [], [], map[];
      checkpoints, cursor := map[], None;
    }

    ghost function View(): Tables
      reads this
    {
      Tables(mints, transfers, burns, holders)
    }

    /** Moves the holder table by one event; the store fails at call `fault` if that is reached. */
    method ApplyLedgerEventAggregates(event: LedgerEvent, fault: nat) returns (ok: bool)
      modifies this`holders
      ensures ok == (StoreCalls(event) <= fault)
      ensures ok ==> holders == Moves(old(holders), DeltasFor(event))
    {
      var deltas := DeltasFor(event);
      for i := 0 to |deltas|
        invariant i <= fault
        invariant holders == Moves(old(holders), deltas[..i])
      {
        if fault == i {
          return false;
        }
        assert deltas[..i + 1][..i] == deltas[..i];
        var address, delta := deltas[i].address, deltas[i].delta;
        var balance := Get(holders, address) + delta;
        if balance == 0 {
          holders := holders - {address};
        } else {
          holders := holders[address := balance];
        }
      }
      assert deltas[..|deltas|] == deltas;
      // A moved supply appends a supply point, which can fail too.
      return SupplyDeltaFor(event) == 0 || fault != |deltas|;
    }

    /** The row and its aggregates commit together or not at all. */
    method PersistEventRow(table: Table, row: Row, fault: nat) returns (r: Result<Row, DatabaseError>)
      modifies this`mints, this`transfers, this`burns, this`holders
      ensures r.Success? <==> !HasKey(old(View()).Rows(table), row.txHash) && StoreCalls(row.event) < fault
      ensures r.Success? ==> r.value == row && View() == Persist(old(View()), Entry(table, row))
      ensures r.Failure? ==> View() == old(View())
      ensures r == Failure(UniqueViolation) <==> 0 < fault && HasKey(old(View()).Rows(table), row.txHash)
    {
      if fault == 0 {
        return Failure(Unavailable);
      }
      var m, t, b, h := mints, transfers, burns, holders;
      match table {
        case MintTable =>
          if HasKey(mints, row.txHash) { return Failure(UniqueViolation); }
          mints := mints + [row];
        case TransferTable =>
          if HasKey(transfers, row.txHash) { return Failure(UniqueViolation); }
          transfers := transfers + [row];
        case BurnTable =>
          if HasKey(burns, row.txHash) { return Failure(UniqueViolation); }
          burns := burns + [row];
      }
      var ok := ApplyLedgerEventAggregates(row.event, fault - 1);
      if !ok {
        mints, transfers, burns, holders := m, t, b, h;
        return Failure(Unavailable);
      }
      return Success(row);
    }

    /** Ingests one event. Database errors are swallowed; only an unreadable topic makes the call fail. */
    method ProcessEvent(event: RawEvent, fault: nat) returns (ok: bool)
      modifies this`mints, this`transfers, this`burns, this`holders
      ensures ok <==> event.topics == [] || event.topics[0] != Undecodable
      ensures View() == Process(old(View()), DeliveryOf(event, fault))
    {
      if event.topics == [] {
        return true;
      }
      if event.topics[0] == Undecodable {
        return false;
      }
      match Decode(event) {
        case None =>
        case Some(x) =>
          var _ := PersistEventRow(x.table, x.row, fault);
      }
      ok := true;
    }
  }

  // --- The log of stored rows, and what the holder table has to say about it ---

  function Tag(table: Table, rows: seq<Row>): (xs: seq<Entry>)
    ensures |xs| == |rows| && forall i :: 0 <= i < |rows| ==> xs[i] == Entry(table, rows[i])
  {
    seq(|rows|, i requires 0 <= i < |rows| => Entry(table, rows[i]))
  }

  function Log(t: Tables): seq<Entry> {
    Tag(MintTable, t.mints) + Tag(TransferTable, t.transfers) + Tag(BurnTable, t.burns)
  }

  function Events(log: seq<Entry>): seq<LedgerEvent> {
    if log == [] then [] else [log[0].row.event] + Events(log[1..])
  }

  predicate SameKey(x: Entry, y: Entry) {
    x.table == y.table && x.row.txHash == y.row.txHash
  }

  /** No entry twice, and no two entries under one (table, txHash). */
  ghost predicate UniqueKeys(log: seq<Entry>) {
    && (forall x :: multiset(log)[x] <= 1)
    && (forall x, y :: x in multiset(log) && y in multiset(log) && SameKey(x, y) ==> x == y)
  }

  /** The holder table is the ledger fold of the stored rows, which have unique keys. */
  ghost predicate Consistent(t: Tables) {
    && UniqueKeys(Log(t))
    && t.holders == Fold(Events(Log(t))).balances
  }

  lemma {:induction false} EventsConcat(xs: seq<Entry>, ys: seq<Entry>)
    ensures Events(xs + ys) == Events(xs) + Events(ys)
  {
    if xs == [] {
      assert xs + ys == ys;
    } else {
      assert (xs + ys)[1..] == xs[1..] + ys;
      EventsConcat(xs[1..], ys);
    }
  }

  lemma {:induction false} EventsPermuted(xs: seq<Entry>, ys: seq<Entry>)
    requires multiset(xs) == multiset(ys)
    ensures multiset(Events(xs)) == multiset(Events(ys))
    decreases |xs|
  {
    if xs == [] {
      assert |multiset(ys)| == |ys|;
    } else {
      assert xs[0] in multiset(xs);
      var pre, post := Pluck(ys, xs[0]);
      HeadTail(xs);
      EventsPermuted(xs[1..], pre + post);
      EventsConcat(pre, post);
      EventsConcat(pre + [xs[0]], post);
      EventsConcat(pre, [xs[0]]);
      EventsOne(xs[0]);
      calc {
        multiset(Events(ys));
        multiset(Events(pre)) + multiset([xs[0].row.event]) + multiset(Events(post));
        multiset([xs[0].row.event]) + multiset(Events(xs[1..]));
        multiset(Events(xs));
      }
    }
  }

  lemma EventsOne(x: Entry)
    ensures Events([x]) == [x.row.event]
  {
    assert [x][1..] == [];
  }

  lemma TagHolds(table: Table, rows: seq<Row>, x: Entry)
    ensures x in Tag(table, rows) <==> x.table == table && x.row in rows
  {
    if x.table == table && x.row in rows {
      var i :| 0 <= i < |rows| && rows[i] == x.row;
      assert Tag(table, rows)[i] == x;
    }
  }

  lemma LogHolds(t: Tables, x: Entry)
    ensures x in multiset(Log(t)) <==> x.row in t.Rows(x.table)
  {
    LogCounts(t);
    TagHolds(MintTable, t.mints, x);
    TagHolds(TransferTable, t.transfers, x);
    TagHolds(BurnTable, t.burns, x);
  }

  lemma KeyIsLogged(t: Tables, table: Table, txHash: string)
    ensures HasKey(t.Rows(table), txHash)
            <==> exists x :: x in multiset(Log(t)) && x.table == table && x.row.txHash == txHash
  {
    var rows := t.Rows(table);
    if HasKey(rows, txHash) {
      var i :| 0 <= i < |rows| && rows[i].txHash == txHash;
      LogHolds(t, Entry(table, rows[i]));
      assert Entry(table, rows[i]) in multiset(Log(t));
    }
    if x :| x in multiset(Log(t)) && x.table == table && x.row.txHash == txHash {
      LogHolds(t, x);
      assert HasKey(rows, txHash);
    }
  }

  lemma TagAppends(table: Table, rows: seq<Row>, row: Row)
    ensures multiset(Tag(table, rows + [row])) == multiset(Tag(table, rows)) + multiset{Entry(table, row)}
  {
    assert Tag(table, rows + [row]) == Tag(table, rows) + [Entry(table, row)];
  }

  lemma LogCounts(t: Tables)
    ensures multiset(Log(t)) == multiset(Tag(MintTable, t.mints))
                                + multiset(Tag(TransferTable, t.transfers)) + multiset(Tag(BurnTable, t.burns))
  {
  }

  lemma AppendLogs(t: Tables, x: Entry)
    ensures multiset(Log(t.Append(x.table, x.row))) == multiset(Log(t)) + multiset{x}
  {
    var u := t.Append(x.table, x.row);
    LogCounts(t);
    LogCounts(u);
    match x.table
    case MintTable =>
      TagAppends(MintTable, t.mints, x.row);
      assert u == t.(mints := t.mints + [x.row]);
    case TransferTable =>
      TagAppends(TransferTable, t.transfers, x.row);
      assert u == t.(transfers := t.transfers + [x.row]);
    case BurnTable =>
      TagAppends(BurnTable, t.burns, x.row);
      assert u == t.(burns := t.burns + [x.row]);
  }

  lemma UniqueKeysExtend(log: seq<Entry>, more: seq<Entry>, x: Entry)
    requires UniqueKeys(log) && multiset(more) == multiset(log) + multiset{x}
    requires forall y :: y in multiset(log) ==> !SameKey(x, y)
    ensures UniqueKeys(more)
  {
    assert SameKey(x, x);
  }

  lemma FoldExtends(log: seq<Entry>, more: seq<Entry>, x: Entry)
    requires multiset(more) == multiset(log) + multiset{x}
    ensures Fold(Events(more)) == Apply(Fold(Events(log)), x.row.event)
  {
    var es := Events(log);
    EventsPermuted(more, log + [x]);
    EventsConcat(log, [x]);
    EventsOne(x);
    FoldIsOrderIndependent(Events(more), es + [x.row.event]);
    assert (es + [x.row.event])[..|es|] == es;
  }

  lemma PersistKeepsConsistent(t: Tables, x: Entry)
    requires Consistent(t)
    ensures Consistent(Persist(t, x))
    ensures multiset(Log(Persist(t, x)))
            == multiset(Log(t)) + if HasKey(t.Rows(x.table), x.row.txHash) then multiset{} else multiset{x}
  {
    if !HasKey(t.Rows(x.table), x.row.txHash) {
      var log, more := Log(t), Log(Persist(t, x));
      AppendLogs(t, x);
      assert more == Log(t.Append(x.table, x.row));
      KeyIsLogged(t, x.table, x.row.txHash);
      UniqueKeysExtend(log, more, x);
      FoldExtends(log, more, x);
    }
  }

  /**
   Every run of event deliveries, with repeats and failed transactions anywhere,
   leaves the holder table equal to the ledger fold of the stored rows.
   */
  lemma {:induction false} RunKeepsConsistent(t: Tables, ds: seq<Delivery>)
    requires Consistent(t)
    ensures Consistent(ProcessAll(t, ds))
  {
    if ds != [] {
      var n := |ds| - 1;
      RunKeepsConsistent(t, ds[..n]);
      if ds[n].asks.Some? {
        PersistKeepsConsistent(ProcessAll(t, ds[..n]), ds[n].asks.value);
      }
    }
  }

  lemma EmptyIsConsistent()
    ensures Consistent(EMPTY_TABLES)
  {
    assert Log(EMPTY_TABLES) == [];
  }

  ghost predicate AlreadyStored(t: Tables, d: Delivery) {
    d.asks.Some? ==>
      var x := d.asks.value; HasKey(t.Rows(x.table), x.row.txHash)
  }

  /** Delivering stored events again, however often and in whatever order, changes nothing. */
  lemma {:induction false} ReplayChangesNothing(t: Tables, ds: seq<Delivery>)
    requires forall i :: 0 <= i < |ds| ==> AlreadyStored(t, ds[i])
    ensures ProcessAll(t, ds) == t
  {
    if ds != [] {
      ReplayChangesNothing(t, ds[..|ds| - 1]);
      assert AlreadyStored(t, ds[|ds| - 1]);
    }
  }

  /** `ds` delivers only events of `xs`, and each of them at least once with a committed transaction. */
  ghost predicate DeliversAtLeastOnce(ds: seq<Delivery>, xs: seq<Entry>) {
    && DeliversOnly(ds, xs)
    && (forall x :: x in xs ==> Delivers(ds, x))
  }

  ghost predicate Delivers(ds: seq<Delivery>, x: Entry) {
    exists i :: 0 <= i < |ds| && ds[i].committed && ds[i].asks == Some(x)
  }

  ghost predicate DeliversOnly(ds: seq<Delivery>, xs: seq<Entry>) {
    forall i :: 0 <= i < |ds| && ds[i].asks.Some? ==> ds[i].asks.value in xs
  }

  /** The stored entries are exactly those delivered with a committed transaction. */
  ghost predicate Stores(t: Tables, ds: seq<Delivery>) {
    forall x :: x in multiset(Log(t)) <==> Delivers(ds, x)
  }

  lemma DeliversLast(before: seq<Delivery>, d: Delivery, x: Entry)
    ensures Delivers(before + [d], x) <==> Delivers(before, x) || (d.committed && d.asks == Some(x))
  {
    var ds := before + [d];
    if Delivers(before, x) {
      var i :| 0 <= i < |before| && before[i].committed && before[i].asks == Some(x);
      assert ds[i] == before[i];
    }
    assert ds[|before|] == d;
  }

  /** A taken key is taken by the very entry that is delivered again. */
  lemma TakenByItself(t: Tables, before: seq<Delivery>, x: Entry, xs: seq<Entry>)
    requires UniqueKeys(xs) && DeliversOnly(before, xs) && x in xs && Stores(t, before)
    requires HasKey(t.Rows(x.table), x.row.txHash)
    ensures x in multiset(Log(t))
  {
    KeyIsLogged(t, x.table, x.row.txHash);
    var z :| z in multiset(Log(t)) && SameKey(z, x);
    assert Delivers(before, z);
    assert x in multiset(xs) && z in multiset(xs) && SameKey(x, z);
  }

  lemma StepStores(t: Tables, before: seq<Delivery>, d: Delivery, xs: seq<Entry>)
    requires UniqueKeys(xs) && DeliversOnly(before, xs) && (d.asks.Some? ==> d.asks.value in xs)
    requires Consistent(t) && Stores(t, before)
    ensures Stores(Process(t, d), before + [d])
  {
    if d.committed && d.asks.Some? {
      PersistKeepsConsistent(t, d.asks.value);
      if HasKey(t.Rows(d.asks.value.table), d.asks.value.row.txHash) {
        TakenByItself(t, before, d.asks.value, xs);
      }
    }
    forall x ensures x in multiset(Log(Process(t, d))) <==> Delivers(before + [d], x) {
      DeliversLast(before, d, x);
    }
  }

  lemma {:induction false} RunStoresDelivered(ds: seq<Delivery>, xs: seq<Entry>)
    requires UniqueKeys(xs) && DeliversOnly(ds, xs)
    ensures Consistent(ProcessAll(EMPTY_TABLES, ds)) && Stores(ProcessAll(EMPTY_TABLES, ds), ds)
  {
    if ds == [] {
      EmptyIsConsistent();
      assert Log(EMPTY_TABLES) == [];
    } else {
      var n := |ds| - 1;
      RunStoresDelivered(ds[..n], xs);
      StepStores(ProcessAll(EMPTY_TABLES, ds[..n]), ds[..n], ds[n], xs);
      assert ds == ds[..n] + [ds[n]];
      EmptyIsConsistent();
      RunKeepsConsistent(EMPTY_TABLES, ds);
    }
  }

  /**
   At-least-once delivery has an exactly-once effect: whatever repeats, failed
   attempts and reorderings occur, the holders end as the fold of the distinct events.
   */
  lemma AtLeastOnceIsExactlyOnce(ds: seq<Delivery>, xs: seq<Entry>)
    requires UniqueKeys(xs) && DeliversAtLeastOnce(ds, xs)
    ensures ProcessAll(EMPTY_TABLES, ds).holders == Fold(Events(xs)).balances
    ensures multiset(Log(ProcessAll(EMPTY_TABLES, ds))) == multiset(xs)
  {
    var t := ProcessAll(EMPTY_TABLES, ds);
    RunStoresDelivered(ds, xs);
    forall x
      ensures multiset(Log(t))[x] == multiset(xs)[x]
    {
      assert x in multiset(Log(t)) <==> Delivers(ds, x);
      assert x in multiset(xs) <==> x in xs;
    }
    EventsPermuted(Log(t), xs);
    FoldIsOrderIndependent(Events(Log(t)), Events(xs));
  }

  /** No other entry holds the key of `x`. */
  ghost predicate KeyIsFreeFor(t: Tables, x: Entry) {
    forall y :: y in multiset(Log(t)) && SameKey(x, y) ==> y == x
  }

  /** All stored entries are among `xs`. */
  ghost predicate StoresOnly(t: Tables, xs: seq<Entry>) {
    forall y :: y in multiset(Log(t)) ==> y in xs
  }

  lemma {:induction false} DeliveriesKeepEntry(t: Tables, ds: seq<Delivery>, y: Entry)
    requires y in multiset(Log(t))
    ensures y in multiset(Log(ProcessAll(t, ds)))
  {
    if ds != [] {
      var n := |ds| - 1;
      DeliveriesKeepEntry(t, ds[..n], y);
      if ds[n].asks.Some? {
        AppendLogs(ProcessAll(t, ds[..n]), ds[n].asks.value);
        PersistLogs(ProcessAll(t, ds[..n]), ds[n].asks.value);
      }
    }
  }

  lemma PersistLogs(t: Tables, x: Entry)
    ensures multiset(Log(Persist(t, x)))
            == multiset(Log(t)) + if HasKey(t.Rows(x.table), x.row.txHash) then multiset{} else multiset{x}
  {
    if !HasKey(t.Rows(x.table), x.row.txHash) {
      AppendLogs(t, x);
      assert Log(Persist(t, x)) == Log(t.Append(x.table, x.row));
    }
  }

  /** A delivered entry is stored exactly if nothing else had its key. */
  lemma PersistStoresIff(t: Tables, x: Entry)
    requires UniqueKeys(Log(t))
    ensures x in multiset(Log(Persist(t, x))) <==> KeyIsFreeFor(t, x)
  {
    PersistLogs(t, x);
    if HasKey(t.Rows(x.table), x.row.txHash) {
      TakenIsStoredIff(t, x);
    } else {
      FreshKeyIsFree(t, x);
    }
  }

  lemma TakenIsStoredIff(t: Tables, x: Entry)
    requires UniqueKeys(Log(t)) && HasKey(t.Rows(x.table), x.row.txHash)
    ensures x in multiset(Log(t)) <==> KeyIsFreeFor(t, x)
  {
    var y := KeyHolder(t, x);
    if KeyIsFreeFor(t, x) {
      assert y == x;
    }
  }

  lemma KeyHolder(t: Tables, x: Entry) returns (y: Entry)
    requires HasKey(t.Rows(x.table), x.row.txHash)
    ensures y in multiset(Log(t)) && SameKey(x, y)
  {
    var rows := t.Rows(x.table);
    var i :| 0 <= i < |rows| && rows[i].txHash == x.row.txHash;
    y := Entry(x.table, rows[i]);
    LogHolds(t, y);
  }

  lemma FreshKeyIsFree(t: Tables, x: Entry)
    requires !HasKey(t.Rows(x.table), x.row.txHash)
    ensures KeyIsFreeFor(t, x)
  {
    KeyIsLogged(t, x.table, x.row.txHash);
  }

  lemma {:induction false} ProcessFrom(t: Tables, ds: seq<Delivery>, k: nat)
    requires k < |ds|
    ensures ProcessAll(t, ds) == ProcessAll(Process(ProcessAll(t, ds[..k]), ds[k]), ds[k + 1..])
  {
    ProcessConcat(t, ds[..k + 1], ds[k + 1..]);
    ProcessOneMore(t, ds[..k], ds[k]);
    assert ds == ds[..k + 1] + ds[k + 1..];
    assert ds[..k + 1] == ds[..k] + [ds[k]];
  }

  /**
   In any run of deliveries, an entry whose transaction commits is stored in the end
   exactly if no other entry had taken its key before.
   */
  lemma DeliveredIsStoredIff(t: Tables, ds: seq<Delivery>, k: nat)
    requires Consistent(t) && k < |ds| && ds[k].committed && ds[k].asks.Some?
    ensures ds[k].asks.value in multiset(Log(ProcessAll(t, ds)))
            <==> KeyIsFreeFor(ProcessAll(t, ds[..k]), ds[k].asks.value)
  {
    var u, x := ProcessAll(t, ds[..k]), ds[k].asks.value;
    RunKeepsConsistent(t, ds[..k]);
    RunKeepsConsistent(t, ds);
    ProcessFrom(t, ds, k);
    PersistStoresIff(u, x);
    PersistLogs(u, x);
    if KeyIsFreeFor(u, x) {
      DeliveriesKeepEntry(Persist(u, x), ds[k + 1..], x);
    } else {
      var y :| y in multiset(Log(u)) && SameKey(x, y) && y != x;
      DeliveriesKeepEntry(Persist(u, x), ds[k + 1..], y);
    }
  }

  lemma {:induction false} RunStoresOnly(t: Tables, ds: seq<Delivery>, xs: seq<Entry>)
    requires StoresOnly(t, xs) && DeliversOnly(ds, xs)
    ensures StoresOnly(ProcessAll(t, ds), xs)
  {
    if ds != [] {
      var n := |ds| - 1;
      RunStoresOnly(t, ds[..n], xs);
      if ds[n].asks.Some? {
        PersistLogs(ProcessAll(t, ds[..n]), ds[n].asks.value);
      }
    }
  }

  /** So with unique keys among all that is stored and delivered, every committed delivery is stored in the end. */
  lemma DeliveredIsStored(t: Tables, ds: seq<Delivery>, k: nat, xs: seq<Entry>)
    requires Consistent(t) && UniqueKeys(xs) && StoresOnly(t, xs) && DeliversOnly(ds, xs)
    requires k < |ds| && ds[k].committed && ds[k].asks.Some?
    ensures ds[k].asks.value in multiset(Log(ProcessAll(t, ds)))
  {
    var u, x := ProcessAll(t, ds[..k]), ds[k].asks.value;
    RunStoresOnly(t, ds[..k], xs);
    forall y | y in multiset(Log(u)) && SameKey(x, y) ensures y == x {
      assert x in multiset(xs) && y in multiset(xs);
    }
    DeliveredIsStoredIff(t, ds, k);
  }

  /**
   A transaction hash holds one row per table. So a complete delivery stores every event
   exactly when no two of them are of one table and one transaction.
   */
  lemma EveryEventStoredIff(ds: seq<Delivery>, xs: seq<Entry>)
    requires DeliversAtLeastOnce(ds, xs)
    ensures multiset(Log(ProcessAll(EMPTY_TABLES, ds))) == multiset(xs) <==> UniqueKeys(xs)
  {
    EmptyIsConsistent();
    RunKeepsConsistent(EMPTY_TABLES, ds);
    if UniqueKeys(xs) {
      AtLeastOnceIsExactlyOnce(ds, xs);
    }
  }

  /** Two mints in one transaction: the second one is committed, and is not stored. */
  lemma SecondMintIsDropped()
    ensures
      var x, y := Entry(MintTable, Row("tx", 1, Mint("a", 1))), Entry(MintTable, Row("tx", 1, Mint("b", 7)));
      var t := ProcessAll(EMPTY_TABLES, [Delivery(Some(x), true), Delivery(Some(y), true)]);
      t.mints == [x.row] && t.holders == map["a" := 1]
  {
    var x, y := Entry(MintTable, Row("tx", 1, Mint("a", 1))), Entry(MintTable, Row("tx", 1, Mint("b", 7)));
    var dx, dy := Delivery(Some(x), true), Delivery(Some(y), true);
    assert [dx, dy][..1] == [dx] && [dx][..0] == [];
    var once := Persist(EMPTY_TABLES, x);
    MovesOfEvent(map[], x.row.event);
    assert once.mints == [x.row] && once.holders == map["a" := 1];
    assert once.mints[0].txHash == y.row.txHash;
    assert ProcessAll(EMPTY_TABLES, [dx]) == once;
  }

  // --- From what the contract emits ---

  /** The table of an entry is that of its event. */
  predicate WellTyped(x: Entry) {
    match x.row.event
    case Mint(_, _) => x.table == MintTable
    case Burn(_, _) => x.table == BurnTable
    case Transfer(_, _, _) => x.table == TransferTable
  }

  /** An event as the contract emits it: who acted, whether from an allowance, and what follows the fields read. */
  datatype Emission = Emission(x: Entry, actor: Address, byAllowance: bool, topics: seq<Topic>, rest: seq<Field>)

  function RawOf(m: Emission): RawEvent {
    var row := m.x.row;
    match row.event
    case Mint(to, n) =>
      RawEvent([Symbol("mint")] + m.topics, [Account(m.actor), Account(to), Amount(n)] + m.rest, row.ledger, row.txHash)
    case Burn(from, n) =>
      RawEvent([Symbol("burn")] + m.topics, [Account(from), Amount(n)] + m.rest, row.ledger, row.txHash)
    case Transfer(from, to, n) =>
      var fields := [Account(from), Account(to), Amount(n)] + m.rest;
      if m.byAllowance then
        RawEvent([Symbol("xfer_frm")] + m.topics, [Account(m.actor)] + fields, row.ledger, row.txHash)
      else
        RawEvent([Symbol("xfer")] + m.topics, fields, row.ledger, row.txHash)
  }

  /** Decoding undoes emitting, whatever fields and topics follow. */
  lemma DecodeUndoesEmission(m: Emission)
    requires WellTyped(m.x)
    ensures Decode(RawOf(m)) == Some(m.x)
  {
  }

  predicate HasAccount(fields: seq<Field>, i: nat, address: Address) {
    i < |fields| && fields[i] == Account(address)
  }

  predicate HasAmount(fields: seq<Field>, i: nat, amount: int) {
    i < |fields| && fields[i] == Amount(amount)
  }

  /** The raw event is a token event with this entry: its topic, and where its fields stand. */
  predicate Carries(e: RawEvent, x: Entry) {
    && WellTyped(x) && x.row.txHash == e.txHash && x.row.ledger == e.ledger && e.topics != []
    && match x.row.event
       case Mint(to, n) => e.topics[0] == Symbol("mint") && HasAccount(e.fields, 1, to) && HasAmount(e.fields, 2, n)
       case Burn(from, n) => e.topics[0] == Symbol("burn") && HasAccount(e.fields, 0, from) && HasAmount(e.fields, 1, n)
       case Transfer(from, to, n) =>
         || (&& e.topics[0] == Symbol("xfer")
             && HasAccount(e.fields, 0, from) && HasAccount(e.fields, 1, to) && HasAmount(e.fields, 2, n))
         || (&& e.topics[0] == Symbol("xfer_frm")
             && HasAccount(e.fields, 1, from) && HasAccount(e.fields, 2, to) && HasAmount(e.fields, 3, n))
  }

  /** An event asks for a row exactly if it carries one; another topic, or a short or mistyped tuple, asks for none. */
  lemma DecodesIffCarries(e: RawEvent, x: Entry)
    ensures Decode(e) == Some(x) <==> Carries(e, x)
  {
    if e.topics != [] && e.topics[0].Symbol? {
      TopicsDiffer();
    }
  }

  lemma TopicsDiffer()
    ensures "mint" != "burn" && "mint" != "xfer" && "mint" != "xfer_frm"
    ensures "burn" != "xfer" && "burn" != "xfer_frm" && "xfer" != "xfer_frm"
  {
    assert "mint"[0] == 'm' && "burn"[0] == 'b' && "xfer"[0] == 'x' && "xfer_frm"[0] == 'x';
    assert |"xfer"| == 4 && |"xfer_frm"| == 8;
  }

  /** The aggregates of a transfer take two calls, those of a mint or burn two if an amount is moved and else one. */
  lemma CallsOfEvent(e: LedgerEvent)
    ensures StoreCalls(e) == if e.Transfer? || e.amount != 0 then 2 else 1
  {
  }

  /** An emission that arrives, and the database call that fails on it, if that is reached. */
  datatype Arrival = Arrival(emission: Emission, fault: nat)

  function DeliveriesOf(arrivals: seq<Arrival>): (ds: seq<Delivery>)
    ensures |ds| == |arrivals|
    ensures forall i :: 0 <= i < |ds| ==> ds[i] == DeliveryOf(RawOf(arrivals[i].emission), arrivals[i].fault)
  {
    seq(|arrivals|, i requires 0 <= i < |arrivals| => DeliveryOf(RawOf(arrivals[i].emission), arrivals[i].fault))
  }

  /** Some arrival brings `x` with a transaction that goes through. */
  ghost predicate Arrives(arrivals: seq<Arrival>, x: Entry) {
    exists i :: 0 <= i < |arrivals| && arrivals[i].emission.x == x && StoreCalls(x.row.event) < arrivals[i].fault
  }

  lemma ArrivalAsks(arrivals: seq<Arrival>, i: nat)
    requires i < |arrivals| && WellTyped(arrivals[i].emission.x)
    ensures var m := arrivals[i];
      DeliveriesOf(arrivals)[i] == Delivery(Some(m.emission.x), StoreCalls(m.emission.x.row.event) < m.fault)
  {
    DecodeUndoesEmission(arrivals[i].emission);
  }

  lemma ArrivesIsDelivered(arrivals: seq<Arrival>, x: Entry)
    requires Arrives(arrivals, x) && WellTyped(x)
    ensures Delivers(DeliveriesOf(arrivals), x)
  {
    var i :| 0 <= i < |arrivals| && arrivals[i].emission.x == x && StoreCalls(x.row.event) < arrivals[i].fault;
    ArrivalAsks(arrivals, i);
    assert DeliveriesOf(arrivals)[i].committed;
  }

  /** Only events of `xs` arrive. */
  ghost predicate ArriveFrom(arrivals: seq<Arrival>, xs: seq<Entry>) {
    forall i :: 0 <= i < |arrivals| ==> arrivals[i].emission.x in xs && WellTyped(arrivals[i].emission.x)
  }

  lemma ArrivalsDeliverOnly(arrivals: seq<Arrival>, xs: seq<Entry>)
    requires ArriveFrom(arrivals, xs)
    ensures DeliversOnly(DeliveriesOf(arrivals), xs)
  {
    forall i | 0 <= i < |arrivals| ensures DeliveriesOf(arrivals)[i].asks == Some(arrivals[i].emission.x) {
      ArrivalAsks(arrivals, i);
    }
  }

  lemma ArrivesWellTyped(arrivals: seq<Arrival>, xs: seq<Entry>, x: Entry)
    requires ArriveFrom(arrivals, xs) && Arrives(arrivals, x)
    ensures WellTyped(x)
  {
  }

  /**
   From emission to balance: if the events `xs` have unique keys and each arrives at least
   once with a transaction that goes through, the holders end as the fold of `xs`.
   */
  lemma EmissionsCountOnce(arrivals: seq<Arrival>, xs: seq<Entry>)
    requires UniqueKeys(xs) && ArriveFrom(arrivals, xs) && forall x :: x in xs ==> Arrives(arrivals, x)
    ensures ProcessAll(EMPTY_TABLES, DeliveriesOf(arrivals)).holders == Fold(Events(xs)).balances
  {
    ArrivalsDeliverOnly(arrivals, xs);
    forall x | x in xs ensures Delivers(DeliveriesOf(arrivals), x) {
      ArrivesWellTyped(arrivals, xs, x);
      ArrivesIsDelivered(arrivals, x);
    }
    AtLeastOnceIsExactlyOnce(DeliveriesOf(arrivals), xs);
  }
}
