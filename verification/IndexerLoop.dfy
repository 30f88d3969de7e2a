/**
 The ingestion loop of indexer/src/indexer.ts: fetch a window of ledgers, check
 it, ingest its events, commit its checkpoints and the cursor, move on.
 */
module IndexerLoop {
  import opened Wrappers
  import opened Ledger
  import opened Store
  import opened LedgerCursor
  import opened Filters

  const WINDOW := 1000

  /** An event to ingest and the database call of its transaction that fails, if that is reached. */
  datatype Ingest = Ingest(event: RawEvent, fault: nat)

  /** What the environment answers during one pass; None stands for a rejected promise. */
  datatype Replies = Replies(
    latest: Option<int>,
    ledgers: Option<seq<LedgerCoordinate>>,
    reconcile: Option<seq<LedgerCoordinate>>,
    events: Option<seq<Ingest>>,
    commits: bool)

  datatype Outcome = Idle | Failed | Rewound(to: int) | Committed(lo: int, hi: int)

  /** The coordinate a window must continue: the cursor read at start-up, or else what the reply says. */
  function Previous(last: Option<Cursor>, start: int, reply: seq<LedgerCoordinate>): Option<LedgerCoordinate> {
    if last.Some? && last.value.ledger == start - 1 && last.value.hash.Some? && last.value.hash.value != "" then
      Some(LedgerCoordinate(last.value.ledger, last.value.hash.value,
                            if last.value.parentHash.Some? then last.value.parentHash.value else ""))
    else FindLedger(reply, start - 1)
  }

  predicate HasReadableTopic(e: RawEvent) {
    e.topics == [] || e.topics[0] != Undecodable
  }

  predicate Readable(events: seq<Ingest>) {
    forall i :: 0 <= i < |events| ==> HasReadableTopic(events[i].event)
  }

  /** What a list of events delivers: each of them in order, up to the first without a readable topic. */
  function Deliveries(events: seq<Ingest>): seq<Delivery> {
    if events == [] || !HasReadableTopic(events[0].event) then []
    else [DeliveryOf(events[0].event, events[0].fault)] + Deliveries(events[1..])
  }

  function WindowEnd(start: int, latest: int): int {
    if start + WINDOW < latest then start + WINDOW else latest
  }

  // --- What one pass does ---

  /** What the loop works on: the next ledger to fetch, and the database. */
  datatype World = World(
    start: int,
    tables: Tables,
    checkpoints: map<int, LedgerCoordinate>,
    cursor: Option<Cursor>)

  /** There is a window to fetch, and the reply lists it completely, linked to what came before. */
  ghost predicate OffersWindow(last: Option<Cursor>, start: int, r: Replies) {
    && r.latest.Some? && start <= r.latest.value && r.ledgers.Some?
    && (var hi := WindowEnd(start, r.latest.value);
        var window := Between(r.ledgers.value, start, hi);
        Lists(window, start, hi) && Continuous(window, Previous(last, start, r.ledgers.value)))
  }

  // --- The same, in terms of the reply ---

  /** A window ends 1000 ledgers after its start, or at the latest ledger if that comes first. */
  predicate EndsAt(start: int, latest: int, hi: int) {
    hi <= start + 1000 && hi <= latest && (hi == start + 1000 || hi == latest)
  }

  predicate StartsAtCursor(last: Option<Cursor>, start: int) {
    last.Some? && last.value.ledger == start - 1 && last.value.hash.Some? && last.value.hash.value != ""
  }

  /**
   The first ledger of the window has the parent hash that the start-up cursor asks for,
   if that is the ledger before it and its hash is known, or else the first entry that the
   reply has for the ledger before it, if there is one.
   */
  ghost predicate Follows(last: Option<Cursor>, start: int, reply: seq<LedgerCoordinate>) {
    forall k :: 0 <= k < |reply| && reply[k].ledger == start ==>
                  if StartsAtCursor(last, start) then reply[k].parentHash == last.value.hash.value
                  else forall i :: IsFirst(reply, i, start - 1) ==> reply[k].parentHash == reply[i].hash
  }

  ghost predicate OffersChain(last: Option<Cursor>, start: int, hi: int, reply: seq<LedgerCoordinate>) {
    HoldsInOrder(reply, start, hi) && LinkedWithin(reply, start, hi) && Follows(last, start, reply)
  }

  /** The replies have the whole window, each ledger once, in order and parent-linked. */
  ghost predicate Offers(last: Option<Cursor>, start: int, r: Replies) {
    && r.latest.Some? && start <= r.latest.value && r.ledgers.Some?
    && exists hi :: EndsAt(start, r.latest.value, hi) && OffersChain(last, start, hi, r.ledgers.value)
  }

  /** When a pass commits: the window is offered, all its events can be read, and nothing else fails. */
  ghost predicate Accepts(last: Option<Cursor>, start: int, r: Replies) {
    && Offers(last, start, r) && r.events.Some? && r.commits
    && forall k :: 0 <= k < |r.events.value| ==>
         var topics := r.events.value[k].event.topics; topics == [] || topics[0] != Undecodable
  }

  lemma ContinuousIff(w: seq<LedgerCoordinate>, previous: Option<LedgerCoordinate>)
    ensures Continuous(w, previous)
            <==> Continuous(w, None) && (previous.Some? && w != [] ==> Linked(previous.value, w[0]))
  {
  }

  lemma FollowsIff(last: Option<Cursor>, start: int, reply: seq<LedgerCoordinate>, first: LedgerCoordinate)
    requires first.ledger == start
    requires exists k :: 0 <= k < |reply| && reply[k] == first
    requires forall k :: 0 <= k < |reply| && reply[k].ledger == start ==> reply[k] == first
    ensures var p := Previous(last, start, reply);
      (p.Some? ==> Linked(p.value, first)) <==> Follows(last, start, reply)
  {
    var k :| 0 <= k < |reply| && reply[k] == first;
    FindLedgerFinds(reply, start - 1);
    FoundIffThere(reply, start - 1);
    forall i | IsFirst(reply, i, start - 1) ensures FindLedger(reply, start - 1) == Some(reply[i]) {
      FoundIsFirst(reply, i, start - 1);
    }
  }

  lemma OfferedIffChain(last: Option<Cursor>, start: int, hi: int, reply: seq<LedgerCoordinate>)
    requires start <= hi
    ensures var w := Between(reply, start, hi);
      Lists(w, start, hi) && Continuous(w, Previous(last, start, reply)) <==> OffersChain(last, start, hi, reply)
  {
    var w := Between(reply, start, hi);
    BetweenFilters(reply, start, hi);
    ListsIffInOrder(reply, start, hi);
    if Lists(w, start, hi) {
      LinkedIffWithin(w, reply, start, hi);
      ContinuousIff(w, Previous(last, start, reply));
      FilteredHolds(w, reply, InRange(start, hi), w[0]);
      forall k | 0 <= k < |reply| && reply[k].ledger == start ensures reply[k] == w[0] {
        ListedEntry(w, reply, start, hi, k);
      }
      FollowsIff(last, start, reply, w[0]);
    }
  }

  lemma OffersIff(last: Option<Cursor>, start: int, r: Replies)
    ensures OffersWindow(last, start, r) <==> Offers(last, start, r)
  {
    if r.latest.Some? && start <= r.latest.value && r.ledgers.Some? {
      var hi := WindowEnd(start, r.latest.value);
      OfferedIffChain(last, start, hi, r.ledgers.value);
      forall h ensures EndsAt(start, r.latest.value, h) <==> h == hi {}
    }
  }

  /** In particular a reply that has the linked window in one stretch, whatever stands around it. */
  lemma StretchIsOffered(last: Option<Cursor>, start: int, hi: int, r: Replies,
                         pre: seq<LedgerCoordinate>, w: seq<LedgerCoordinate>, post: seq<LedgerCoordinate>)
    requires r.latest.Some? && start <= r.latest.value && EndsAt(start, r.latest.value, hi)
    requires r.ledgers == Some(pre + w + post) && Lists(w, start, hi)
    requires forall c :: c in pre || c in post ==> !(start <= c.ledger <= hi)
    ensures Offers(last, start, r) <==> Continuous(w, Previous(last, start, pre + w + post))
  {
    WindowIsContained(pre, w, post, start, hi);
    OfferedIffChain(last, start, hi, pre + w + post);
    forall h | EndsAt(start, r.latest.value, h) ensures h == hi {}
  }

  /** When a pass compares the cursor read at start-up with the chain, and they differ. */
  ghost predicate FindsFork(last: Option<Cursor>, w: World, r: Replies) {
    && r.latest.Some? && w.start <= r.latest.value && r.ledgers.Some? && !OffersWindow(last, w.start, r)
    && last.Some? && r.reconcile.Some? && 0 < last.value.ledger
    && Mismatch(ScannedCheckpoints(w, last.value), BySequence(r.reconcile.value), last.value)
  }

  function ScannedCheckpoints(w: World, last: Cursor): seq<LedgerCoordinate> {
    Window(w.checkpoints, ScanStart(last.ledger), last.ledger + 1)
  }

  /** Where the fork leads back to. */
  function ForkPoint(w: World, r: Replies, last: Cursor): Cursor
    requires r.reconcile.Some?
  {
    CursorAt(CommonCheckpoint(ScannedCheckpoints(w, last), BySequence(r.reconcile.value), last))
  }

  /** What a pass delivers, whether or not it commits afterwards. */
  ghost function PassDeliveries(last: Option<Cursor>, start: int, r: Replies): seq<Delivery> {
    if OffersWindow(last, start, r) && r.events.Some? then Deliveries(r.events.value) else []
  }

  /** A pass whose window is offered delivers its events, and commits if they can be read and nothing else fails. */
  ghost function OfferedResult(last: Option<Cursor>, w: World, r: Replies): (result: (World, Outcome))
    requires Keyed(w.checkpoints) && OffersWindow(last, w.start, r)
    ensures Keyed(result.0.checkpoints)
  {
    var hi := WindowEnd(w.start, r.latest.value);
    var window := Between(r.ledgers.value, w.start, hi);
    var delivered := w.(tables := ProcessAll(w.tables, PassDeliveries(last, w.start, r)));
    if r.events.Some? && Readable(r.events.value) && r.commits then
      (World(hi + 1, delivered.tables, AddCheckpoints(w.checkpoints, window),
             Some(CursorAt(Some(window[|window| - 1])))),
       Committed(w.start, hi))
    else (delivered, Failed)
  }

  /** Any other pass changes nothing, unless it finds a fork and goes back to where it began. */
  ghost function RefusedResult(last: Option<Cursor>, w: World, r: Replies): (result: (World, Outcome))
    requires Keyed(w.checkpoints)
    ensures Keyed(result.0.checkpoints)
  {
    if FindsFork(last, w, r) then
      var to := ForkPoint(w, r, last.value);
      (World(w.start, AfterRewind(w.tables, to.ledger),
             map n | n in w.checkpoints && n <= to.ledger :: w.checkpoints[n], Some(to)),
       Rewound(to.ledger))
    else (w, if r.latest.Some? && r.latest.value < w.start then Idle else Failed)
  }

  /** One pass of the endless loop. */
  ghost function PassResult(last: Option<Cursor>, w: World, r: Replies): (result: (World, Outcome))
    requires Keyed(w.checkpoints)
    ensures Keyed(result.0.checkpoints)
  {
    if OffersWindow(last, w.start, r) then OfferedResult(last, w, r) else RefusedResult(last, w, r)
  }

  class Indexer {
    const db: Database
    const lastLedger: Option<Cursor>
    var startLedger: int

    ghost function View(): World
      reads this, db
    {
      World(startLedger, db.View(), db.checkpoints, db.cursor)
    }

    ghost predicate Valid()
      reads this, db
    {
      Sane(lastLedger, View())
    }

    /** Starts after the saved cursor, which is seeded with what the RPC reports for it if its hash is not known. */
    constructor (database: Database, seed: seq<LedgerCoordinate>)
      requires Keyed(database.checkpoints)
      modifies database`checkpoints, database`cursor
      ensures db == database && lastLedger == old(database.cursor) && Valid() && Synced(View())
      ensures db.View() == old(database.View())
      ensures lastLedger.None? ==>
                startLedger == 1 && db.cursor == None && db.checkpoints == old(database.checkpoints)
      ensures lastLedger.Some? ==>
                && startLedger == lastLedger.value.ledger + 1
                && db.checkpoints == Seeded(old(database.checkpoints), lastLedger.value, seed).0
                && db.cursor == Some(Seeded(old(database.checkpoints), lastLedger.value, seed).1)
    {
      db, lastLedger := database, database.cursor;
      startLedger := if database.cursor.Some? then database.cursor.value.ledger + 1 else 1;
      new;
      if database.cursor.Some? {
        SeedLedgerCheckpoints(database, seed, database.cursor.value);
      }
    }

    /** Ingests the events in order, until the first one without a readable topic. */
    method Ingest(events: seq<Ingest>) returns (ok: bool)
      modifies db`mints, db`transfers, db`burns, db`holders
      ensures db.View() == ProcessAll(old(db.View()), Deliveries(events))
      ensures ok <==> Readable(events)
    {
      ghost var before := db.View();
      for i := 0 to |events|
        invariant db.View() == ProcessAll(before, Deliveries(events[..i]))
        invariant Readable(events[..i])
      {
        ok := db.ProcessEvent(events[i].event, events[i].fault);
        if !ok {
          DeliveriesStop(events, i);
          return false;
        }
        DeliveriesGoOn(events, i);
        ProcessOneMore(before, Deliveries(events[..i]), DeliveryOf(events[i].event, events[i].fault));
      }
      assert events[..|events|] == events;
      return true;
    }

    /** What a pass does when the window is refused: compare with the cursor read at start-up, then give up. */
    method Refuse(r: Replies) returns (outcome: Outcome)
      requires Valid() && r.latest.Some? && startLedger <= r.latest.value && r.ledgers.Some?
      requires !OffersWindow(lastLedger, startLedger, r)
      modifies db
      ensures (View(), outcome) == RefusedResult(lastLedger, old(View()), r)
    {
      if lastLedger.None? || r.reconcile.None? {
        return Failed;
      }
      var last := lastLedger.value;
      ghost var before := View();
      if FindsFork(lastLedger, before, r) {
        RewindGoesBack(db.checkpoints, BySequence(r.reconcile.value), last);
      }
      var to := ReconcileLedgerCursor(db, r.reconcile.value, last);
      return if to < last.ledger then Rewound(to) else Failed;
    }

    /** Saves the checkpoints of an accepted window together with the cursor. */
    method Commit(window: seq<LedgerCoordinate>, endLedger: int)
      requires Keyed(db.checkpoints) && window != []
      modifies this`startLedger, db`checkpoints, db`cursor
      ensures View() == World(endLedger + 1, old(db.View()),
                              AddCheckpoints(old(db.checkpoints), window),
                              Some(CursorAt(Some(window[|window| - 1]))))
    {
      db.checkpoints := AddCheckpoints(db.checkpoints, window);
      db.cursor := Some(CursorAt(Some(window[|window| - 1])));
      startLedger := endLedger + 1;
    }

    /** What a pass does when the window is accepted. */
    method Accept(r: Replies, coordinates: seq<LedgerCoordinate>, endLedger: int) returns (outcome: Outcome)
      requires Valid() && OffersWindow(lastLedger, startLedger, r)
      requires endLedger == WindowEnd(startLedger, r.latest.value)
      requires coordinates == Between(r.ledgers.value, startLedger, endLedger)
      modifies this, db
      ensures (View(), outcome) == OfferedResult(lastLedger, old(View()), r)
    {
      if r.events.None? {
        return Failed;
      }
      ghost var before := View();
      var ok := Ingest(r.events.value);
      OfferedResultIs(lastLedger, before, r, coordinates, endLedger);
      if !ok || !r.commits {
        return Failed;
      }
      var lo := startLedger;
      Commit(coordinates, endLedger);
      return Committed(lo, endLedger);
    }

    /** One pass of the endless loop. */
    method Pass(r: Replies) returns (outcome: Outcome)
      requires Valid()
      modifies this, db
      ensures (View(), outcome) == PassResult(lastLedger, old(View()), r)
    {
      if r.latest.None? {
        return Failed;
      }
      if startLedger > r.latest.value {
        return Idle;
      }
      var endLedger := WindowEnd(startLedger, r.latest.value);
      if r.ledgers.None? {
        return Failed;
      }
      var coordinates := Between(r.ledgers.value, startLedger, endLedger);
      var previous := Previous(lastLedger, startLedger, r.ledgers.value);
      AcceptedWindowIsExact(r.ledgers.value, startLedger, endLedger, previous);
      var continuous := HasContinuousParentChain(coordinates, previous);
      if |coordinates| != endLedger - startLedger + 1 || !continuous {
        outcome := Refuse(r);
        return;
      }
      outcome := Accept(r, coordinates, endLedger);
    }

    /** Any number of passes of the endless loop. */
    method Run(replies: seq<Replies>) returns (outcomes: seq<Outcome>)
      requires Valid()
      modifies this, db
      ensures Valid() && (View(), outcomes) == RunResult(lastLedger, old(View()), replies)
    {
      outcomes := [];
      ghost var before := View();
      assert replies[..0] == [];
      for i := 0 to |replies|
        invariant Valid() && (View(), outcomes) == RunResult(lastLedger, before, replies[..i])
      {
        PassKeepsSane(lastLedger, View(), replies[i]);
        RunOneMore(lastLedger, before, replies, i);
        var outcome := Pass(replies[i]);
        outcomes := outcomes + [outcome];
      }
      assert replies[..|replies|] == replies;
    }
  }

  lemma OfferedResultIs(last: Option<Cursor>, w: World, r: Replies, window: seq<LedgerCoordinate>, hi: int)
    requires Keyed(w.checkpoints) && OffersWindow(last, w.start, r) && r.events.Some?
    requires hi == WindowEnd(w.start, r.latest.value) && window == Between(r.ledgers.value, w.start, hi)
    ensures window != []
    ensures var tables := ProcessAll(w.tables, Deliveries(r.events.value));
      OfferedResult(last, w, r)
      == if Readable(r.events.value) && r.commits then
           (World(hi + 1, tables, AddCheckpoints(w.checkpoints, window), Some(CursorAt(Some(window[|window| - 1])))),
            Committed(w.start, hi))
         else (w.(tables := tables), Failed)
  {
  }

  lemma {:induction false} DeliveriesConcat(xs: seq<Ingest>, ys: seq<Ingest>)
    requires Readable(xs)
    ensures Deliveries(xs + ys) == Deliveries(xs) + Deliveries(ys)
  {
    if xs == [] {
      assert xs + ys == ys;
    } else {
      var rest := xs[1..];
      ReadableRest(xs);
      DeliveriesConcat(rest, ys);
      assert xs == [xs[0]] + rest && xs + ys == [xs[0]] + (rest + ys);
      DeliveriesCons(xs[0], rest);
      DeliveriesCons(xs[0], rest + ys);
      Reassociate([DeliveryOf(xs[0].event, xs[0].fault)], Deliveries(rest), Deliveries(ys));
    }
  }

  lemma Reassociate(a: seq<Delivery>, b: seq<Delivery>, c: seq<Delivery>)
    ensures a + (b + c) == (a + b) + c
  {
  }

  lemma DeliveriesCons(x: Ingest, xs: seq<Ingest>)
    requires HasReadableTopic(x.event)
    ensures Deliveries([x] + xs) == [DeliveryOf(x.event, x.fault)] + Deliveries(xs)
  {
    assert ([x] + xs)[1..] == xs;
  }

  lemma ReadableRest(xs: seq<Ingest>)
    requires xs != [] && Readable(xs)
    ensures HasReadableTopic(xs[0].event) && Readable(xs[1..])
  {
    forall i | 0 <= i < |xs[1..]| ensures HasReadableTopic(xs[1..][i].event) {
      assert xs[1..][i] == xs[i + 1];
    }
  }

  lemma DeliveriesGoOn(events: seq<Ingest>, i: nat)
    requires i < |events| && Readable(events[..i]) && HasReadableTopic(events[i].event)
    ensures Deliveries(events[..i + 1]) == Deliveries(events[..i]) + [DeliveryOf(events[i].event, events[i].fault)]
    ensures Readable(events[..i + 1])
  {
    assert events[..i + 1] == events[..i] + [events[i]];
    DeliveriesConcat(events[..i], [events[i]]);
  }

  lemma DeliveriesStop(events: seq<Ingest>, i: nat)
    requires i < |events| && Readable(events[..i]) && !HasReadableTopic(events[i].event)
    ensures Deliveries(events) == Deliveries(events[..i]) && !Readable(events)
  {
    assert events == events[..i] + events[i..];
    DeliveriesConcat(events[..i], events[i..]);
  }

  // --- Runs ---

  /** The checkpoints are stored under their numbers, and the start lies after the cursor read at start-up. */
  ghost predicate Sane(last: Option<Cursor>, w: World) {
    Keyed(w.checkpoints) && (last.Some? ==> last.value.ledger < w.start)
  }

  /** The world after a run, and the outcomes of its passes. */
  ghost function RunResult(last: Option<Cursor>, w: World, replies: seq<Replies>): (r: (World, seq<Outcome>))
    requires Keyed(w.checkpoints)
    ensures |r.1| == |replies| && Keyed(r.0.checkpoints)
  {
    if replies == [] then (w, [])
    else
      var (before, outcomes) := RunResult(last, w, replies[..|replies| - 1]);
      var (after, outcome) := PassResult(last, before, replies[|replies| - 1]);
      (after, outcomes + [outcome])
  }

  lemma RunOneMore(last: Option<Cursor>, w: World, replies: seq<Replies>, i: nat)
    requires Keyed(w.checkpoints) && i < |replies|
    ensures var (before, outcomes) := RunResult(last, w, replies[..i]);
      var (after, outcome) := PassResult(last, before, replies[i]);
      RunResult(last, w, replies[..i + 1]) == (after, outcomes + [outcome])
  {
    assert replies[..i + 1][..i] == replies[..i];
  }

  lemma PassKeepsSane(last: Option<Cursor>, w: World, r: Replies)
    requires Sane(last, w)
    ensures Sane(last, PassResult(last, w, r).0) && w.start <= PassResult(last, w, r).0.start
  {
  }

  lemma {:induction false} RunKeepsSane(last: Option<Cursor>, w: World, replies: seq<Replies>)
    requires Sane(last, w)
    ensures Sane(last, RunResult(last, w, replies).0)
  {
    if replies != [] {
      RunKeepsSane(last, w, replies[..|replies| - 1]);
      PassKeepsSane(last, RunResult(last, w, replies[..|replies| - 1]).0, replies[|replies| - 1]);
    }
  }

  /** The start of the i-th pass of a run. */
  ghost function StartOf(last: Option<Cursor>, w: World, replies: seq<Replies>, i: nat): int
    requires Keyed(w.checkpoints) && i <= |replies|
  {
    RunResult(last, w, replies[..i]).0.start
  }

  /** A pass of a run commits exactly if its replies are acceptable at the start that the passes before it have left. */
  lemma {:induction false} PassCommitsIff(last: Option<Cursor>, w: World, replies: seq<Replies>, i: nat)
    requires Keyed(w.checkpoints) && i < |replies|
    ensures var outcome := RunResult(last, w, replies).1[i];
      var start := StartOf(last, w, replies, i);
      && (outcome.Committed? <==> Accepts(last, start, replies[i]))
      && (outcome.Committed? ==> outcome.lo == start && EndsAt(start, replies[i].latest.value, outcome.hi))
  {
    var n := |replies| - 1;
    if i < n {
      EarlierOutcome(last, w, replies, i);
      PassCommitsIff(last, w, replies[..n], i);
      assert replies[..n][..i] == replies[..i];
    } else {
      LastOutcome(last, w, replies);
      OutcomeIff(last, RunResult(last, w, replies[..n]).0, replies[n]);
    }
  }

  lemma OutcomeIff(last: Option<Cursor>, w: World, r: Replies)
    requires Keyed(w.checkpoints)
    ensures var outcome := PassResult(last, w, r).1;
      && (outcome.Committed? <==> Accepts(last, w.start, r))
      && (outcome.Committed? ==> outcome.lo == w.start && EndsAt(w.start, r.latest.value, outcome.hi))
  {
    OffersIff(last, w.start, r);
  }

  /** When a pass goes back: its window is refused, and the chain of the start-up cursor has changed. */
  ghost predicate GoesBack(last: Option<Cursor>, w: World, r: Replies)
    requires Keyed(w.checkpoints)
  {
    && r.latest.Some? && w.start <= r.latest.value && r.ledgers.Some? && !Offers(last, w.start, r)
    && last.Some? && 0 < last.value.ledger && r.reconcile.Some?
    && Forked(w.checkpoints, r.reconcile.value, last.value)
  }

  lemma ForkIsFoundIff(last: Option<Cursor>, w: World, r: Replies)
    requires Keyed(w.checkpoints)
    ensures FindsFork(last, w, r) <==> GoesBack(last, w, r)
  {
    OffersIff(last, w.start, r);
    if last.Some? && 0 < last.value.ledger && r.reconcile.Some? {
      CompareIffForked(w.checkpoints, r.reconcile.value, last.value);
    }
  }

  /**
   Every pass ends in one of four ways: it is idle exactly if the next ledger is not there
   yet, it commits or goes back exactly when the replies call for it, and fails otherwise.
   Where it goes back to is as the rewind finds it; a pass that neither commits nor goes
   back moves neither start, cursor nor checkpoints.
   */
  lemma PassEndsAs(last: Option<Cursor>, w: World, r: Replies)
    requires Keyed(w.checkpoints)
    ensures var (after, outcome) := PassResult(last, w, r);
      && (outcome.Idle? <==> r.latest.Some? && r.latest.value < w.start)
      && (outcome.Committed? <==> Accepts(last, w.start, r))
      && (outcome.Rewound? <==> GoesBack(last, w, r))
      && (outcome.Rewound? ==>
            && after.cursor == Some(RewindCursor(w.checkpoints, BySequence(r.reconcile.value), last.value))
            && outcome.to == after.cursor.value.ledger
            && after.start == w.start && after.tables == AfterRewind(w.tables, outcome.to)
            && (forall n :: n in after.checkpoints <==> n in w.checkpoints && n <= outcome.to)
            && (forall n :: n in after.checkpoints ==> after.checkpoints[n] == w.checkpoints[n]))
      && (outcome.Idle? || outcome.Failed? ==>
            after.start == w.start && after.cursor == w.cursor && after.checkpoints == w.checkpoints)
  {
    OffersIff(last, w.start, r);
    ForkIsFoundIff(last, w, r);
  }

  /** Neither a stored checkpoint nor an earlier ledger of the window whose number is free has the hash. */
  ghost predicate IsNewHash(m: map<int, LedgerCoordinate>, reply: seq<LedgerCoordinate>, lo: int, k: int)
    requires 0 <= k < |reply|
  {
    && (forall n :: n in m ==> m[n].hash != reply[k].hash)
    && (forall j :: 0 <= j < |reply| && lo <= reply[j].ledger < reply[k].ledger && reply[j].ledger !in m ==>
          reply[j].hash != reply[k].hash)
  }

  /**
   What is stored stays; of the window, a ledger whose number is free is stored exactly if
   its hash is new; and nothing else is added.
   */
  ghost predicate StoresWindow(r: map<int, LedgerCoordinate>, m: map<int, LedgerCoordinate>,
                               reply: seq<LedgerCoordinate>, lo: int, hi: int)
  {
    && (forall n :: n in m ==> n in r && r[n] == m[n])
    && (forall n :: n in r && n !in m ==> lo <= n <= hi && r[n] in reply)
    && (forall k :: 0 <= k < |reply| && lo <= reply[k].ledger <= hi && reply[k].ledger !in m ==>
          && (reply[k].ledger in r <==> IsNewHash(m, reply, lo, k))
          && (reply[k].ledger in r ==> r[reply[k].ledger] == reply[k]))
  }

  lemma WindowIsStored(m: map<int, LedgerCoordinate>, window: seq<LedgerCoordinate>,
                       reply: seq<LedgerCoordinate>, lo: int, hi: int)
    requires Keyed(m) && Filtered(window, reply, InRange(lo, hi)) && Lists(window, lo, hi)
    ensures StoresWindow(AddCheckpoints(m, window), m, reply, lo, hi)
  {
    var r := AddCheckpoints(m, window);
    forall n | n in r && n !in m ensures lo <= n <= hi && r[n] in reply {
      AddedComeFrom(m, window, n);
      FilteredHolds(window, reply, InRange(lo, hi), r[n]);
    }
    forall k | 0 <= k < |reply| && lo <= reply[k].ledger <= hi && reply[k].ledger !in m
      ensures reply[k].ledger in r <==> IsNewHash(m, reply, lo, k)
      ensures reply[k].ledger in r ==> r[reply[k].ledger] == reply[k]
    {
      WindowEntryStoredIff(m, window, reply, lo, hi, k);
    }
  }

  /**
   What a pass that commits stores: the cursor gets the coordinates of the last ledger of
   the window. Stored checkpoints stay; of the window, a ledger whose number is free is
   stored exactly if its hash is not stored yet, nor that of an earlier one of these.
   */
  lemma CommitStoresWindow(last: Option<Cursor>, w: World, r: Replies)
    requires Keyed(w.checkpoints) && PassResult(last, w, r).1.Committed?
    ensures r.ledgers.Some?
    ensures var (after, outcome) := PassResult(last, w, r);
      var lo, hi, reply, m := outcome.lo, outcome.hi, r.ledgers.value, w.checkpoints;
      && after.start == hi + 1
      && (forall k :: 0 <= k < |reply| && reply[k].ledger == hi ==>
            after.cursor == Some(Cursor(hi, Some(reply[k].hash), Some(reply[k].parentHash))))
      && StoresWindow(after.checkpoints, m, reply, lo, hi)
  {
    OutcomeIff(last, w, r);
    OffersIff(last, w.start, r);
    var lo, hi, reply, m := w.start, WindowEnd(w.start, r.latest.value), r.ledgers.value, w.checkpoints;
    var window := Between(reply, lo, hi);
    BetweenFilters(reply, lo, hi);
    forall k | 0 <= k < |reply| && reply[k].ledger == hi ensures window[|window| - 1] == reply[k] {
      ListedEntry(window, reply, lo, hi, k);
    }
    WindowIsStored(m, window, reply, lo, hi);
  }

  lemma WindowEntryStoredIff(m: map<int, LedgerCoordinate>, window: seq<LedgerCoordinate>,
                             reply: seq<LedgerCoordinate>, lo: int, hi: int, k: nat)
    requires Keyed(m) && Filtered(window, reply, InRange(lo, hi)) && Lists(window, lo, hi)
    requires k < |reply| && lo <= reply[k].ledger <= hi && reply[k].ledger !in m
    ensures var r := AddCheckpoints(m, window);
      && (reply[k].ledger in r <==> IsNewHash(m, reply, lo, k))
      && (reply[k].ledger in r ==> r[reply[k].ledger] == reply[k])
  {
    var i := reply[k].ledger - lo;
    ListedEntry(window, reply, lo, hi, k);
    StoredIffHashIsFree(m, window, i);
    if HashIsFree(m, window, i) {
      forall j | 0 <= j < |reply| && lo <= reply[j].ledger < reply[k].ledger && reply[j].ledger !in m
        ensures reply[j].hash != reply[k].hash
      {
        ListedEntry(window, reply, lo, hi, j);
      }
    }
    if IsNewHash(m, reply, lo, k) {
      forall j | 0 <= j < i && window[j].ledger !in m ensures window[j].hash != window[i].hash {
        FilteredHolds(window, reply, InRange(lo, hi), window[j]);
        var l :| 0 <= l < |reply| && reply[l] == window[j];
      }
    }
  }

  lemma LastOutcome(last: Option<Cursor>, w: World, replies: seq<Replies>)
    requires Keyed(w.checkpoints) && replies != []
    ensures var n := |replies| - 1;
      RunResult(last, w, replies).1[n] == PassResult(last, RunResult(last, w, replies[..n]).0, replies[n]).1
  {
  }

  function WindowsOf(outcomes: seq<Outcome>): seq<(int, int)> {
    if outcomes == [] then []
    else
      var o := outcomes[|outcomes| - 1];
      WindowsOf(outcomes[..|outcomes| - 1]) + if o.Committed? then [(o.lo, o.hi)] else []
  }

  /** The committed windows tile the ledgers from the first start to the next one, rewinds or not. */
  lemma {:induction false} CommittedWindowsTile(last: Option<Cursor>, w: World, replies: seq<Replies>)
    requires Keyed(w.checkpoints)
    ensures var (after, outcomes) := RunResult(last, w, replies);
      Tiles(WindowsOf(outcomes), w.start, after.start)
  {
    if replies != [] {
      var n := |replies| - 1;
      CommittedWindowsTile(last, w, replies[..n]);
      var (before, outcomes) := RunResult(last, w, replies[..n]);
      PassMovesStart(last, before, replies[n]);
      var (after, o) := PassResult(last, before, replies[n]);
      TilesGoOn(outcomes, o, w.start, before.start, after.start);
    }
  }

  lemma PassMovesStart(last: Option<Cursor>, w: World, r: Replies)
    requires Keyed(w.checkpoints)
    ensures var (after, o) := PassResult(last, w, r);
      if o.Committed? then o.lo == w.start <= o.hi && after.start == o.hi + 1 else after.start == w.start
  {
  }

  lemma TilesGoOn(outcomes: seq<Outcome>, o: Outcome, lo: int, mid: int, end: int)
    requires Tiles(WindowsOf(outcomes), lo, mid)
    requires if o.Committed? then o.lo == mid <= o.hi && end == o.hi + 1 else end == mid
    ensures Tiles(WindowsOf(outcomes + [o]), lo, end)
  {
    assert (outcomes + [o])[..|outcomes|] == outcomes;
    if o.Committed? {
      TilesExtend(WindowsOf(outcomes), lo, o.lo, o.hi);
    } else {
      assert WindowsOf(outcomes) + [] == WindowsOf(outcomes);
    }
  }

  /** The saved cursor is the ledger just before the next window. */
  ghost predicate Synced(w: World) {
    w.start == if w.cursor.Some? then w.cursor.value.ledger + 1 else 1
  }

  /** The last thing that moved the cursor was a rewind. */
  predicate Detached(outcomes: seq<Outcome>) {
    outcomes != [] &&
      var o := outcomes[|outcomes| - 1];
      o.Rewound? || (!o.Committed? && Detached(outcomes[..|outcomes| - 1]))
  }

  /** Where a run has left the cursor, if any pass has moved it. */
  function LastMove(outcomes: seq<Outcome>): Option<int> {
    if outcomes == [] then None
    else match outcomes[|outcomes| - 1]
      case Committed(_, hi) => Some(hi)
      case Rewound(to) => Some(to)
      case _ => LastMove(outcomes[..|outcomes| - 1])
  }

  lemma PassMovesCursor(last: Option<Cursor>, w: World, r: Replies)
    requires Sane(last, w)
    ensures var (after, o) := PassResult(last, w, r);
      match o
      case Committed(_, hi) => after.cursor.Some? && after.cursor.value.ledger == hi && Synced(after)
      case Rewound(to) => after.cursor.Some? && after.cursor.value.ledger == to && !Synced(after)
      case _ => after.cursor == w.cursor && after.start == w.start
  {
    if FindsFork(last, w, r) {
      RewindGoesBack(w.checkpoints, BySequence(r.reconcile.value), last.value);
    }
  }

  /**
   The saved cursor is where the last commit or rewind has put it, and it is the end of
   the last window exactly if that was no rewind.
   */
  lemma {:induction false} CursorFollowsRun(last: Option<Cursor>, w: World, replies: seq<Replies>)
    requires Sane(last, w) && Synced(w)
    ensures var (after, outcomes) := RunResult(last, w, replies);
      && (Synced(after) <==> !Detached(outcomes))
      && match LastMove(outcomes)
         case Some(n) => after.cursor.Some? && after.cursor.value.ledger == n
         case None => after.cursor == w.cursor
  {
    if replies != [] {
      var n := |replies| - 1;
      CursorFollowsRun(last, w, replies[..n]);
      RunKeepsSane(last, w, replies[..n]);
      var (before, outcomes) := RunResult(last, w, replies[..n]);
      PassMovesCursor(last, before, replies[n]);
      assert RunResult(last, w, replies).1[..n] == outcomes;
    }
  }

  // --- What a run makes of the tables ---

  /** The deliveries of all passes, one after the other. */
  ghost function RunDeliveries(last: Option<Cursor>, w: World, replies: seq<Replies>): seq<Delivery>
    requires Keyed(w.checkpoints)
  {
    if replies == [] then []
    else
      var n := |replies| - 1;
      RunDeliveries(last, w, replies[..n]) + PassDeliveries(last, StartOf(last, w, replies, n), replies[n])
  }

  predicate NoRewind(outcomes: seq<Outcome>) {
    forall i :: 0 <= i < |outcomes| ==> !outcomes[i].Rewound?
  }

  /** Without a rewind the tables are what the deliveries make of them, and the holders stay the fold of the rows. */
  lemma {:induction false} RunDelivers(last: Option<Cursor>, w: World, replies: seq<Replies>)
    requires Keyed(w.checkpoints) && NoRewind(RunResult(last, w, replies).1)
    ensures RunResult(last, w, replies).0.tables == ProcessAll(w.tables, RunDeliveries(last, w, replies))
    ensures Consistent(w.tables) ==> Consistent(RunResult(last, w, replies).0.tables)
  {
    if replies != [] {
      var n := |replies| - 1;
      var (before, outcomes) := RunResult(last, w, replies[..n]);
      var all := RunResult(last, w, replies).1;
      assert all[..n] == outcomes && !all[n].Rewound?;
      assert forall i :: 0 <= i < n ==> outcomes[i] == all[i];
      RunDelivers(last, w, replies[..n]);
      ProcessConcat(w.tables, RunDeliveries(last, w, replies[..n]), PassDeliveries(last, before.start, replies[n]));
    }
    if Consistent(w.tables) {
      RunKeepsConsistent(w.tables, RunDeliveries(last, w, replies));
    }
  }

  /** The net, for one address, of the rows that the rewinds of a run have deleted. */
  ghost function DeletedNet(last: Option<Cursor>, w: World, replies: seq<Replies>, a: Address): int
    requires Keyed(w.checkpoints)
  {
    if replies == [] then 0
    else
      var n := |replies| - 1;
      var before := RunResult(last, w, replies[..n]).0;
      var o := PassResult(last, before, replies[n]).1;
      DeletedNet(last, w, replies[..n], a) + if o.Rewound? then NetOfTables(Deleted(before.tables, o.to), a) else 0
  }

  ghost predicate DeletionsCancelOut(last: Option<Cursor>, w: World, replies: seq<Replies>)
    requires Keyed(w.checkpoints)
  {
    forall a :: DeletedNet(last, w, replies, a) == 0
  }

  lemma PassDrifts(last: Option<Cursor>, w: World, r: Replies, a: Address)
    requires Keyed(w.checkpoints) && NoZeroEntry(w.tables.holders)
    ensures var (after, o) := PassResult(last, w, r);
      && NoZeroEntry(after.tables.holders)
      && Drift(after.tables, a)
         == Drift(w.tables, a) + if o.Rewound? then NetOfTables(Deleted(w.tables, o.to), a) else 0
  {
    var o := PassResult(last, w, r).1;
    if o.Rewound? {
      RewindShiftsDrift(w.tables, o.to, a);
    } else {
      RunKeepsDrift(w.tables, PassDeliveries(last, w.start, r), a);
    }
  }

  lemma {:induction false} RunDrifts(last: Option<Cursor>, w: World, replies: seq<Replies>, a: Address)
    requires Keyed(w.checkpoints) && NoZeroEntry(w.tables.holders)
    ensures var after := RunResult(last, w, replies).0;
      && NoZeroEntry(after.tables.holders)
      && Drift(after.tables, a) == Drift(w.tables, a) + DeletedNet(last, w, replies, a)
  {
    if replies != [] {
      var n := |replies| - 1;
      RunDrifts(last, w, replies[..n], a);
      PassDrifts(last, RunResult(last, w, replies[..n]).0, replies[n], a);
    }
  }

  /**
   After any run, with as many rewinds as may be, the holder table is the fold of the
   stored rows exactly when what the rewinds have deleted cancels out for every address.
   */
  lemma HoldersRightAfterRunIff(last: Option<Cursor>, w: World, replies: seq<Replies>)
    requires Keyed(w.checkpoints) && Consistent(w.tables)
    ensures HoldersRight(RunResult(last, w, replies).0.tables) <==> DeletionsCancelOut(last, w, replies)
  {
    RunFromConsistentDrifts(last, w, replies, "");
    forall a ensures Drift(RunResult(last, w, replies).0.tables, a) == DeletedNet(last, w, replies, a) {
      RunFromConsistentDrifts(last, w, replies, a);
    }
    DriftedByDeletions(last, w, replies, RunResult(last, w, replies).0.tables);
  }

  lemma DriftedByDeletions(last: Option<Cursor>, w: World, replies: seq<Replies>, t: Tables)
    requires Keyed(w.checkpoints) && NoZeroEntry(t.holders)
    requires forall a :: Drift(t, a) == DeletedNet(last, w, replies, a)
    ensures HoldersRight(t) <==> DeletionsCancelOut(last, w, replies)
  {
    var d := (a: Address) => DeletedNet(last, w, replies, a);
    HoldersRightIffZero(t, d);
    if HoldersRight(t) {
      forall a ensures DeletedNet(last, w, replies, a) == 0 {
        assert d(a) == 0;
      }
    }
  }

  lemma RunFromConsistentDrifts(last: Option<Cursor>, w: World, replies: seq<Replies>, a: Address)
    requires Keyed(w.checkpoints) && Consistent(w.tables)
    ensures NoZeroEntry(RunResult(last, w, replies).0.tables.holders)
    ensures Drift(RunResult(last, w, replies).0.tables, a) == DeletedNet(last, w, replies, a)
  {
    ConsistentHasNoDrift(w.tables);
    RunDrifts(last, w, replies, a);
  }

  /** The first k events and the next one can be read. */
  ghost predicate ReadableThrough(events: seq<Ingest>, k: nat) {
    k < |events| && forall j :: 0 <= j <= k ==>
      var topics := events[j].event.topics; topics == [] || topics[0] != Undecodable
  }

  /** An event is delivered exactly if it and those before it can be read, and then in its place. */
  lemma {:induction false} DeliveriesAt(events: seq<Ingest>, k: nat)
    ensures k < |Deliveries(events)| <==> ReadableThrough(events, k)
    ensures ReadableThrough(events, k) ==> Deliveries(events)[k] == DeliveryOf(events[k].event, events[k].fault)
  {
    if events != [] && HasReadableTopic(events[0].event) {
      var rest := events[1..];
      assert events == [events[0]] + rest;
      DeliveriesCons(events[0], rest);
      if 0 < k {
        DeliveriesAt(rest, k - 1);
        assert ReadableThrough(events, k) <==> ReadableThrough(rest, k - 1);
      }
    }
  }

  /** Where the k-th event of the i-th pass stands among all deliveries of the run. */
  ghost function Position(last: Option<Cursor>, w: World, replies: seq<Replies>, i: nat, k: nat): nat
    requires Keyed(w.checkpoints) && i <= |replies|
  {
    |RunDeliveries(last, w, replies[..i])| + k
  }

  /** The i-th pass offers its window, and ingests `x` as its k-th event without the database failing on it. */
  ghost predicate IngestsEvent(last: Option<Cursor>, w: World, replies: seq<Replies>, i: nat, k: nat, x: Entry)
    requires Keyed(w.checkpoints)
  {
    && i < |replies| && Offers(last, StartOf(last, w, replies, i), replies[i])
    && replies[i].events.Some? && ReadableThrough(replies[i].events.value, k)
    && var e := replies[i].events.value[k];
       DeliveryOf(e.event, e.fault) == Delivery(Some(x), true)
  }

  /** The i-th pass commits a window whose reply has `x` as its k-th event, and the database does not fail on it. */
  ghost predicate CommitsEvent(last: Option<Cursor>, w: World, replies: seq<Replies>, i: nat, k: nat, x: Entry)
    requires Keyed(w.checkpoints)
  {
    && i < |replies| && RunResult(last, w, replies).1[i].Committed?
    && replies[i].events.Some? && k < |replies[i].events.value|
    && var e := replies[i].events.value[k];
       DeliveryOf(e.event, e.fault) == Delivery(Some(x), true)
  }

  lemma CommittedIsIngested(last: Option<Cursor>, w: World, replies: seq<Replies>, i: nat, k: nat, x: Entry)
    requires Keyed(w.checkpoints) && CommitsEvent(last, w, replies, i, k, x)
    ensures IngestsEvent(last, w, replies, i, k, x)
  {
    PassCommitsIff(last, w, replies, i);
  }

  lemma IngestsEarlier(last: Option<Cursor>, w: World, replies: seq<Replies>, i: nat, k: nat, x: Entry)
    requires Keyed(w.checkpoints) && i < |replies| - 1 && IngestsEvent(last, w, replies, i, k, x)
    ensures var before := replies[..|replies| - 1];
      && IngestsEvent(last, w, before, i, k, x)
      && Position(last, w, replies, i, k) == Position(last, w, before, i, k)
  {
    assert replies[..|replies| - 1][..i] == replies[..i];
  }

  lemma {:induction false} IngestedEventIsDelivered(last: Option<Cursor>, w: World, replies: seq<Replies>,
                                                    i: nat, k: nat, x: Entry)
    requires Keyed(w.checkpoints) && IngestsEvent(last, w, replies, i, k, x)
    ensures var ds, j := RunDeliveries(last, w, replies), Position(last, w, replies, i, k);
      j < |ds| && ds[j] == Delivery(Some(x), true)
  {
    var n := |replies| - 1;
    if i == n {
      LastEventIsDelivered(last, w, replies, k, x);
    } else {
      IngestsEarlier(last, w, replies, i, k, x);
      IngestedEventIsDelivered(last, w, replies[..n], i, k, x);
      StaysDelivered(last, w, replies, Position(last, w, replies[..n], i, k));
    }
  }

  lemma StaysDelivered(last: Option<Cursor>, w: World, replies: seq<Replies>, j: nat)
    requires Keyed(w.checkpoints) && replies != [] && j < |RunDeliveries(last, w, replies[..|replies| - 1])|
    ensures j < |RunDeliveries(last, w, replies)|
    ensures RunDeliveries(last, w, replies)[j] == RunDeliveries(last, w, replies[..|replies| - 1])[j]
  {
  }

  lemma PassDeliversAt(last: Option<Cursor>, start: int, r: Replies, k: nat)
    ensures k < |PassDeliveries(last, start, r)| <==>
              Offers(last, start, r) && r.events.Some? && ReadableThrough(r.events.value, k)
    ensures k < |PassDeliveries(last, start, r)| ==>
              var e := r.events.value[k]; PassDeliveries(last, start, r)[k] == DeliveryOf(e.event, e.fault)
  {
    OffersIff(last, start, r);
    if r.events.Some? {
      DeliveriesAt(r.events.value, k);
    }
  }

  lemma LastEventIsDelivered(last: Option<Cursor>, w: World, replies: seq<Replies>, k: nat, x: Entry)
    requires Keyed(w.checkpoints) && replies != [] && IngestsEvent(last, w, replies, |replies| - 1, k, x)
    ensures var ds, j := RunDeliveries(last, w, replies), Position(last, w, replies, |replies| - 1, k);
      j < |ds| && ds[j] == Delivery(Some(x), true)
  {
    var n := |replies| - 1;
    PassDeliversAt(last, StartOf(last, w, replies, n), replies[n], k);
  }

  /** The i-th pass delivers its k-th event, and that is the j-th delivery of the run. */
  ghost predicate DeliversAs(last: Option<Cursor>, w: World, replies: seq<Replies>, i: nat, k: nat, j: nat)
    requires Keyed(w.checkpoints)
  {
    && i < |replies| && Offers(last, StartOf(last, w, replies, i), replies[i])
    && replies[i].events.Some? && ReadableThrough(replies[i].events.value, k)
    && j == Position(last, w, replies, i, k) && j < |RunDeliveries(last, w, replies)|
    && var e := replies[i].events.value[k]; RunDeliveries(last, w, replies)[j] == DeliveryOf(e.event, e.fault)
  }

  lemma DeliversLater(last: Option<Cursor>, w: World, replies: seq<Replies>, i: nat, k: nat, j: nat)
    requires Keyed(w.checkpoints) && replies != [] && DeliversAs(last, w, replies[..|replies| - 1], i, k, j)
    ensures DeliversAs(last, w, replies, i, k, j)
  {
    assert replies[..|replies| - 1][..i] == replies[..i];
    StaysDelivered(last, w, replies, j);
  }

  lemma LastPassDelivers(last: Option<Cursor>, w: World, replies: seq<Replies>, k: nat)
    requires Keyed(w.checkpoints) && replies != []
    requires k < |PassDeliveries(last, StartOf(last, w, replies, |replies| - 1), replies[|replies| - 1])|
    ensures var n := |replies| - 1;
      DeliversAs(last, w, replies, n, k, |RunDeliveries(last, w, replies[..n])| + k)
  {
    var n := |replies| - 1;
    PassDeliversAt(last, StartOf(last, w, replies, n), replies[n], k);
  }

  /** Nothing else is delivered: every delivery of a run is of an event that some pass has ingested. */
  lemma {:induction false} DeliveriesAreIngested(last: Option<Cursor>, w: World, replies: seq<Replies>, j: nat)
    returns (i: nat, k: nat)
    requires Keyed(w.checkpoints) && j < |RunDeliveries(last, w, replies)|
    ensures DeliversAs(last, w, replies, i, k, j)
  {
    var n := |replies| - 1;
    var before := |RunDeliveries(last, w, replies[..n])|;
    if j < before {
      i, k := DeliveriesAreIngested(last, w, replies[..n], j);
      DeliversLater(last, w, replies, i, k, j);
    } else {
      i, k := n, j - before;
      LastPassDelivers(last, w, replies, k);
    }
  }

  lemma EarlierOutcome(last: Option<Cursor>, w: World, replies: seq<Replies>, i: nat)
    requires Keyed(w.checkpoints) && i < |replies| - 1
    ensures RunResult(last, w, replies).1[i] == RunResult(last, w, replies[..|replies| - 1]).1[i]
  {
  }

  /**
   What becomes of an event that a pass ingests, in a run without a rewind, whether or not
   the pass commits afterwards: if the database did not fail on it, its row is stored in
   the end exactly if no other event of its table and transaction was stored before it.
   */
  lemma IngestedEventStoredIff(last: Option<Cursor>, w: World, replies: seq<Replies>, i: nat, k: nat, x: Entry)
    requires Keyed(w.checkpoints) && Consistent(w.tables) && NoRewind(RunResult(last, w, replies).1)
    requires IngestsEvent(last, w, replies, i, k, x)
    ensures Position(last, w, replies, i, k) < |RunDeliveries(last, w, replies)|
    ensures var before := RunDeliveries(last, w, replies)[..Position(last, w, replies, i, k)];
      x in multiset(Log(RunResult(last, w, replies).0.tables)) <==> KeyIsFreeFor(ProcessAll(w.tables, before), x)
  {
    IngestedEventIsDelivered(last, w, replies, i, k, x);
    RunDelivers(last, w, replies);
    DeliveredIsStoredIff(w.tables, RunDeliveries(last, w, replies), Position(last, w, replies, i, k));
  }

  /** So with unique keys among all that is stored and delivered, nothing of a committed window is lost. */
  lemma CommittedEventsAreStored(last: Option<Cursor>, w: World, replies: seq<Replies>, i: nat, k: nat,
                                 x: Entry, xs: seq<Entry>)
    requires Keyed(w.checkpoints) && Consistent(w.tables) && NoRewind(RunResult(last, w, replies).1)
    requires CommitsEvent(last, w, replies, i, k, x)
    requires UniqueKeys(xs) && StoresOnly(w.tables, xs) && DeliversOnly(RunDeliveries(last, w, replies), xs)
    ensures x in multiset(Log(RunResult(last, w, replies).0.tables))
  {
    CommittedIsIngested(last, w, replies, i, k, x);
    IngestedEventIsDelivered(last, w, replies, i, k, x);
    RunDelivers(last, w, replies);
    DeliveredIsStored(w.tables, RunDeliveries(last, w, replies), Position(last, w, replies, i, k), xs);
  }

  // --- Whether the stored checkpoints stay linked ---

  /** The ledger before the window is not stored, or has the parent hash of the window's first ledger. */
  predicate Joins(m: map<int, LedgerCoordinate>, window: seq<LedgerCoordinate>)
    requires Keyed(m) && window != []
  {
    var first := window[0];
    first.ledger - 1 in m && first.ledger in AddCheckpoints(m, window) ==> m[first.ledger - 1].hash == first.parentHash
  }

  /** Checkpoints lie before the next window. */
  ghost predicate Below(m: map<int, LedgerCoordinate>, start: int) {
    forall n :: n in m ==> n < start
  }

  lemma AddedIsNew(m: map<int, LedgerCoordinate>, window: seq<LedgerCoordinate>, lo: int, hi: int, n: int)
    requires Keyed(m) && Lists(window, lo, hi)
    requires n in AddCheckpoints(m, window) && n !in m
    ensures lo <= n <= hi && AddCheckpoints(m, window)[n] == window[n - lo]
  {
    AddedComeFrom(m, window, n);
    var i :| 0 <= i < |window| && window[i] == AddCheckpoints(m, window)[n];
  }

  /** What is stored after a window is added: old checkpoints before it, and its own. */
  lemma AddedAt(m: map<int, LedgerCoordinate>, window: seq<LedgerCoordinate>, lo: int, hi: int, n: int)
    requires Keyed(m) && Lists(window, lo, hi) && Below(m, lo) && n in AddCheckpoints(m, window)
    ensures if n < lo then n in m && AddCheckpoints(m, window)[n] == m[n]
            else n <= hi && AddCheckpoints(m, window)[n] == window[n - lo]
  {
    if n !in m {
      AddedIsNew(m, window, lo, hi, n);
    }
  }

  /** Storing a parent-linked window keeps the table linked exactly if the window joins it. */
  lemma StoringKeepsLinkedIff(m: map<int, LedgerCoordinate>, window: seq<LedgerCoordinate>, lo: int, hi: int,
                              previous: Option<LedgerCoordinate>)
    requires Keyed(m) && LinkedTable(m) && Below(m, lo)
    requires window != [] && Lists(window, lo, hi) && Continuous(window, previous)
    ensures LinkedTable(AddCheckpoints(m, window)) <==> Joins(m, window)
  {
    var r := AddCheckpoints(m, window);
    assert window[0].ledger == lo;
    if lo in r {
      AddedAt(m, window, lo, hi, lo);
    }
    if Joins(m, window) {
      forall n, k | n in r && k in r && k == n + 1 ensures Linked(r[n], r[k]) {
        AddedAt(m, window, lo, hi, k);
        AddedAt(m, window, lo, hi, n);
        assert lo <= n ==> LinkedAt(window, k - lo);
      }
    }
  }

  /** The window of a pass that commits. */
  function WindowOf(w: World, r: Replies): seq<LedgerCoordinate>
    requires r.latest.Some? && r.ledgers.Some?
  {
    Between(r.ledgers.value, w.start, WindowEnd(w.start, r.latest.value))
  }

  /** The pass commits no window, or one that joins the stored checkpoints. */
  ghost predicate PassJoins(last: Option<Cursor>, w: World, r: Replies)
    requires Keyed(w.checkpoints)
  {
    PassResult(last, w, r).1.Committed? ==> WindowOf(w, r) != [] && Joins(w.checkpoints, WindowOf(w, r))
  }

  lemma PassKeepsLinkedIff(last: Option<Cursor>, w: World, r: Replies)
    requires Keyed(w.checkpoints) && LinkedTable(w.checkpoints) && Below(w.checkpoints, w.start)
    ensures var after := PassResult(last, w, r).0;
      Below(after.checkpoints, after.start) && (LinkedTable(after.checkpoints) <==> PassJoins(last, w, r))
  {
    if OffersWindow(last, w.start, r) {
      var hi, window := WindowEnd(w.start, r.latest.value), WindowOf(w, r);
      StoringKeepsLinkedIff(w.checkpoints, window, w.start, hi, Previous(last, w.start, r.ledgers.value));
      forall n | n in AddCheckpoints(w.checkpoints, window) ensures n <= hi {
        AddedAt(w.checkpoints, window, w.start, hi, n);
      }
    }
  }

  ghost predicate EveryPassJoins(last: Option<Cursor>, w: World, replies: seq<Replies>)
    requires Keyed(w.checkpoints)
  {
    replies != [] ==>
      var n := |replies| - 1;
      EveryPassJoins(last, w, replies[..n]) && PassJoins(last, RunResult(last, w, replies[..n]).0, replies[n])
  }

  ghost predicate LinkedThroughout(last: Option<Cursor>, w: World, replies: seq<Replies>)
    requires Keyed(w.checkpoints)
  {
    && LinkedTable(RunResult(last, w, replies).0.checkpoints)
    && (replies != [] ==> LinkedThroughout(last, w, replies[..|replies| - 1]))
  }

  /** The stored checkpoints stay linked throughout a run exactly if every window that it commits joins them. */
  lemma {:induction false} CheckpointsStayLinkedIff(last: Option<Cursor>, w: World, replies: seq<Replies>)
    requires Keyed(w.checkpoints) && LinkedTable(w.checkpoints) && Below(w.checkpoints, w.start)
    ensures LinkedThroughout(last, w, replies) <==> EveryPassJoins(last, w, replies)
    ensures LinkedThroughout(last, w, replies) ==>
              var after := RunResult(last, w, replies).0; Below(after.checkpoints, after.start)
  {
    if replies != [] {
      var n := |replies| - 1;
      CheckpointsStayLinkedIff(last, w, replies[..n]);
      if LinkedThroughout(last, w, replies[..n]) {
        PassKeepsLinkedIff(last, RunResult(last, w, replies[..n]).0, replies[n]);
      }
    }
  }

  /** A window joins exactly if the predecessor that it was compared with has the stored hash. */
  lemma JoinsIffPredecessorIsStored(last: Option<Cursor>, w: World, r: Replies)
    requires Keyed(w.checkpoints) && OffersWindow(last, w.start, r) && WindowOf(w, r) != []
    requires Previous(last, w.start, r.ledgers.value).Some? && w.start - 1 in w.checkpoints
    requires w.start in AddCheckpoints(w.checkpoints, WindowOf(w, r))
    ensures Joins(w.checkpoints, WindowOf(w, r))
            <==> w.checkpoints[w.start - 1].hash == Previous(last, w.start, r.ledgers.value).value.hash
  {
    assert WindowOf(w, r)[0].ledger == w.start;
  }

  // --- Runs that show what does not hold ---

  const OLD_1 := LedgerCoordinate(1, "a1", "g")
  const NEW_1 := LedgerCoordinate(1, "b1", "g")
  const NEW_2 := LedgerCoordinate(2, "b2", "b1")

  function Reply(latest: int, ledgers: seq<LedgerCoordinate>, reconcile: seq<LedgerCoordinate>): Replies {
    Replies(Some(latest), Some(ledgers), Some(reconcile), Some([]), true)
  }

  lemma OnePass(last: Option<Cursor>, w: World, r: Replies)
    requires Keyed(w.checkpoints)
    ensures RunResult(last, w, [r]) == (PassResult(last, w, r).0, [PassResult(last, w, r).1])
  {
    var o := PassResult(last, w, r).1;
    assert [r][..0] == [];
    assert RunResult(last, w, []) == (w, []);
    assert [] + [o] == [o];
  }

  lemma TwoPasses(last: Option<Cursor>, w: World, r: Replies, s: Replies)
    requires Keyed(w.checkpoints)
    ensures var (u, o) := PassResult(last, w, r);
      RunResult(last, w, [r, s]) == (PassResult(last, u, s).0, [o, PassResult(last, u, s).1])
  {
    var (u, o) := PassResult(last, w, r);
    var p := PassResult(last, u, s).1;
    assert [r, s][..1] == [r];
    OnePass(last, w, r);
    assert [o] + [p] == [o, p];
  }

  lemma AddsOne(m: map<int, LedgerCoordinate>, c: LedgerCoordinate)
    requires Keyed(m) && c.ledger !in m && forall n :: n in m ==> m[n].hash != c.hash
    ensures AddCheckpoints(m, [c]) == m[c.ledger := c]
  {
    assert [c][..0] == [];
  }

  lemma OffersOne(last: Option<Cursor>, start: int, r: Replies, c: LedgerCoordinate)
    requires r.latest == Some(start) && r.ledgers.Some?
    requires Between(r.ledgers.value, start, start) == [c] && c.ledger == start
    requires var p := Previous(last, start, r.ledgers.value); p.Some? ==> Linked(p.value, c)
    ensures OffersWindow(last, start, r) && WindowEnd(start, start) == start
  {
  }

  lemma CommitsOne(last: Option<Cursor>, w: World, r: Replies, c: LedgerCoordinate)
    requires Keyed(w.checkpoints) && r.latest == Some(w.start) && r.ledgers.Some? && r.events == Some([]) && r.commits
    requires Between(r.ledgers.value, w.start, w.start) == [c] && c.ledger == w.start
    requires var p := Previous(last, w.start, r.ledgers.value); p.Some? ==> Linked(p.value, c)
    requires w.start !in w.checkpoints && forall n :: n in w.checkpoints ==> w.checkpoints[n].hash != c.hash
    ensures PassResult(last, w, r)
            == (World(w.start + 1, w.tables, w.checkpoints[w.start := c], Some(CursorAt(Some(c)))),
                Committed(w.start, w.start))
  {
    OffersOne(last, w.start, r, c);
    AddsOne(w.checkpoints, c);
    assert PassDeliveries(last, w.start, r) == [];
    assert PassResult(last, w, r) == OfferedResult(last, w, r);
  }

  /**
   From an empty database, two passes between which the RPC changes its chain: both
   windows are committed, and the second is not linked to what the first one stored.
   */
  lemma LaterWindowNeedNotJoin()
    ensures
      var w := World(1, EMPTY_TABLES, map[], None);
      var (after, outcomes) := RunResult(None, w, [Reply(1, [OLD_1], []), Reply(2, [NEW_1, NEW_2], [])]);
      && outcomes == [Committed(1, 1), Committed(2, 2)]
      && after.checkpoints == map[1 := OLD_1, 2 := NEW_2] && !LinkedTable(after.checkpoints)
  {
    FirstWindowStored();
    SecondWindowStored();
    TwoPasses(None, World(1, EMPTY_TABLES, map[], None), Reply(1, [OLD_1], []), Reply(2, [NEW_1, NEW_2], []));
    var m := map[1 := OLD_1, 2 := NEW_2];
    assert 1 in m && 2 in m && !Linked(m[1], m[2]);
  }

  lemma FirstWindowStored()
    ensures PassResult(None, World(1, EMPTY_TABLES, map[], None), Reply(1, [OLD_1], []))
            == (World(2, EMPTY_TABLES, map[1 := OLD_1], Some(CursorAt(Some(OLD_1)))), Committed(1, 1))
  {
    assert [OLD_1][1..] == [];
    assert Between([OLD_1], 1, 1) == [OLD_1];
    assert FindLedger([], 0) == None && FindLedger([OLD_1], 0) == FindLedger([], 0);
    CommitsOne(None, World(1, EMPTY_TABLES, map[], None), Reply(1, [OLD_1], []), OLD_1);
  }

  lemma SecondWindowStored()
    ensures
      var w := World(2, EMPTY_TABLES, map[1 := OLD_1], Some(CursorAt(Some(OLD_1))));
      PassResult(None, w, Reply(2, [NEW_1, NEW_2], []))
      == (World(3, EMPTY_TABLES, map[1 := OLD_1, 2 := NEW_2], Some(CursorAt(Some(NEW_2)))), Committed(2, 2))
  {
    var w := World(2, EMPTY_TABLES, map[1 := OLD_1], Some(CursorAt(Some(OLD_1))));
    var ledgers := [NEW_1, NEW_2];
    assert ledgers[1..] == [NEW_2] && [NEW_2][1..] == [];
    assert Between([NEW_2], 2, 2) == [NEW_2];
    assert Between(ledgers, 2, 2) == [NEW_2] && FindLedger(ledgers, 1) == Some(NEW_1);
    assert OLD_1.hash[0] != NEW_2.hash[0];
    CommitsOne(None, w, Reply(2, ledgers, []), NEW_2);
  }

  /** On that table an RPC that reports the very cursor is found to differ, and the way back leads to 0. */
  lemma UnlinkedTableRewindsFromAgreeingTip()
    ensures
      var m, rpc := map[1 := OLD_1, 2 := NEW_2], map[1 := NEW_1, 2 := NEW_2];
      var cursor := CursorAt(Some(NEW_2));
      && Agrees(rpc, m[2]) && Mismatch(Window(m, 1, 3), rpc, cursor) && RewindTarget(m, rpc, cursor) == 0
  {
    var m, rpc := map[1 := OLD_1, 2 := NEW_2], map[1 := NEW_1, 2 := NEW_2];
    var w := Window(m, 1, 3);
    WindowIsSorted(m, 1, 3);
    var i := IndexInWindow(w, m, 1, 3, 1);
    InOrder(w, m, 1, 3, 0, i);
    FirstIsOldest(w, m, 1, 3);
    assert w[0] == OLD_1;
  }

  /**
   A mint at ledger 1 is stored, the RPC changes its chain, and the next pass rewinds to 0:
   the row is gone, the holder stays.
   */
  lemma RewindLeavesHolder()
    ensures
      var x := Entry(MintTable, Row("tx", 1, Mint("a", 10)));
      var cursor := CursorAt(Some(OLD_1));
      var w := World(2, Persist(EMPTY_TABLES, x), map[1 := OLD_1], Some(cursor));
      var (after, outcome) := PassResult(Some(cursor), w, Reply(2, [NEW_1, NEW_2], [NEW_1]));
      outcome == Rewound(0) && after.tables.mints == [] && after.tables.holders == map["a" := 10]
  {
    var x := Entry(MintTable, Row("tx", 1, Mint("a", 10)));
    var cursor := CursorAt(Some(OLD_1));
    var m := map[1 := OLD_1];
    var w := World(2, Persist(EMPTY_TABLES, x), m, Some(cursor));
    var r := Reply(2, [NEW_1, NEW_2], [NEW_1]);
    MovesOfEvent(map[], x.row.event);
    assert [NEW_1, NEW_2][1..] == [NEW_2] && [NEW_2][1..] == [] && [NEW_1][..0] == [];
    assert Between([NEW_2], 2, 2) == [NEW_2];
    assert Between([NEW_1, NEW_2], 2, 2) == [NEW_2];
    assert !OffersWindow(Some(cursor), 2, r);
    OneCheckpointDiffers(m, BySequence([NEW_1]), cursor);
    assert w.tables.mints == [x.row];
  }

  lemma OneCheckpointDiffers(m: map<int, LedgerCoordinate>, rpc: map<int, LedgerCoordinate>, cursor: Cursor)
    requires m == map[1 := OLD_1] && cursor == CursorAt(Some(OLD_1)) && !Agrees(rpc, OLD_1)
    ensures Mismatch(Window(m, 1, 2), rpc, cursor) && RewindTarget(m, rpc, cursor) == 0
  {
    assert Window(m, 1, 2) == [OLD_1];
  }

  // --- Tilings ---

  /** Non-empty windows, back to back, from `lo` up to but not including `hi`. */
  ghost predicate Tiles(windows: seq<(int, int)>, lo: int, hi: int) {
    if windows == [] then lo == hi
    else windows[0].0 == lo && lo <= windows[0].1 && Tiles(windows[1..], windows[0].1 + 1, hi)
  }

  lemma {:induction false} TilesExtend(windows: seq<(int, int)>, lo: int, mid: int, end: int)
    requires Tiles(windows, lo, mid) && mid <= end
    ensures Tiles(windows + [(mid, end)], lo, end + 1)
  {
    if windows == [] {
      assert [(mid, end)][1..] == [];
    } else {
      TilesExtend(windows[1..], windows[0].1 + 1, mid, end);
      assert (windows + [(mid, end)])[1..] == windows[1..] + [(mid, end)];
    }
  }

  predicate Covers(w: (int, int), n: int) {
    w.0 <= n <= w.1
  }

  predicate BothCover(windows: seq<(int, int)>, i: int, j: int, n: int) {
    0 <= i < |windows| && 0 <= j < |windows| && Covers(windows[i], n) && Covers(windows[j], n)
  }

  lemma {:induction false} TilesLieWithin(windows: seq<(int, int)>, lo: int, hi: int, n: int)
    requires Tiles(windows, lo, hi)
    ensures lo <= hi
    ensures (exists i :: 0 <= i < |windows| && Covers(windows[i], n)) ==> lo <= n < hi
  {
    if windows != [] {
      TilesLieWithin(windows[1..], windows[0].1 + 1, hi, n);
      if i :| 0 < i < |windows| && Covers(windows[i], n) {
        assert Covers(windows[1..][i - 1], n);
      }
    }
  }

  /** Tiling means that every ledger of the range lies in one window, in only one, and no other ledger in any. */
  lemma {:induction false} TilesHoldEachLedgerOnce(windows: seq<(int, int)>, lo: int, hi: int, n: int)
    requires Tiles(windows, lo, hi)
    ensures (exists i :: 0 <= i < |windows| && Covers(windows[i], n)) <==> lo <= n < hi
    ensures forall i, j :: BothCover(windows, i, j, n) ==> i == j
  {
    TilesLieWithin(windows, lo, hi, n);
    if windows != [] {
      var rest := windows[1..];
      TilesHoldEachLedgerOnce(rest, windows[0].1 + 1, hi, n);
      assert forall i :: 0 < i < |windows| ==> windows[i] == rest[i - 1];
      if lo <= n < hi {
        if n <= windows[0].1 {
          assert Covers(windows[0], n);
        } else {
          var i :| 0 <= i < |rest| && Covers(rest[i], n);
          assert Covers(windows[i + 1], n);
        }
      }
      forall i, j | BothCover(windows, i, j, n) ensures i == j
      {
        if i > 0 { assert Covers(rest[i - 1], n); }
        if j > 0 { assert Covers(rest[j - 1], n); }
        assert i > 0 && j > 0 ==> BothCover(rest, i - 1, j - 1, n);
      }
    }
  }
}
