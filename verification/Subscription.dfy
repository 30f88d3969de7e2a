/**
 The polling cursor of `subscribeEvents` (sdk/src/events.ts). The contract's
 event history is a list in ledger order; a successful poll answers with a
 stretch of it, a failed one with nothing.
 */
module Subscription {
  import opened Wrappers
  import opened Filters

  /** An event as the RPC reports it; `decodable` is whether decodeEvent yields a value. */
  datatype Event = Event(ledger: int, id: int, decodable: bool)

  function Max(a: int, b: int): int {
    if a < b then b else a
  }

  /** The cursor after the events of a reply have been walked through. */
  function Advance(lastLedger: int, reply: seq<Event>): int {
    if reply == [] then lastLedger
    else Max(Advance(lastLedger, reply[..|reply| - 1]), reply[|reply| - 1].ledger + 1)
  }

  function Decodable(events: seq<Event>): seq<Event> {
    if events == [] then []
    else Decodable(events[..|events| - 1]) + if events[|events| - 1].decodable then [events[|events| - 1]] else []
  }

  class Subscriber {
    var lastLedger: int
    var active: bool
    /** What the callback has been called with. */
    var delivered: seq<Event>

    /** An absent or zero start ledger is replaced by the latest one. */
    constructor (startLedger: Option<int>, latest: int)
      ensures active && delivered == []
      ensures lastLedger == if startLedger.Some? && startLedger.value != 0 then startLedger.value else latest
    {
      lastLedger := if startLedger.Some? && startLedger.value != 0 then startLedger.value else latest;
      active, delivered := true, [];
    }

    /** One poll whose request was sent; None is a failed request. An unsubscribed poll still delivers. */
    method HandleReply(reply: Option<seq<Event>>) returns (rearm: bool)
      modifies this
      ensures active == old(active) && rearm == active
      ensures reply.None? ==> lastLedger == old(lastLedger) && delivered == old(delivered)
      ensures reply.Some? ==>
                && lastLedger == Advance(old(lastLedger), reply.value)
                && delivered == old(delivered) + Decodable(reply.value)
    {
      if reply.Some? {
        var events := reply.value;
        for i := 0 to |events|
          invariant active == old(active)
          invariant lastLedger == Advance(old(lastLedger), events[..i])
          invariant delivered == old(delivered) + Decodable(events[..i])
        {
          assert events[..i + 1][..i] == events[..i];
          if events[i].decodable {
            delivered := delivered + [events[i]];
          }
          if events[i].ledger >= lastLedger {
            lastLedger := events[i].ledger + 1;
          }
        }
        assert events[..|events|] == events;
      }
      rearm := active;
    }

    method Unsubscribe()
      modifies this`active
      ensures !active
    {
      active := false;
    }
  }

  // --- Runs of polls ---

  datatype Cursor = Cursor(lastLedger: int, delivered: seq<Event>)

  function Poll(c: Cursor, reply: Option<seq<Event>>): Cursor {
    match reply
    case None => c
    case Some(events) => Cursor(Advance(c.lastLedger, events), c.delivered + Decodable(events))
  }

  function PollAll(c: Cursor, replies: seq<Option<seq<Event>>>): Cursor
    decreases |replies|
  {
    if replies == [] then c else PollAll(Poll(c, replies[0]), replies[1..])
  }

  ghost predicate Ordered(events: seq<Event>) {
    forall i, j :: 0 <= i < j < |events| ==> events[i].ledger <= events[j].ledger
  }

  /** The events of the ledgers lo <= ledger < hi, in order. */
  function Slice(history: seq<Event>, lo: int, hi: int): seq<Event> {
    if history == [] then []
    else
      Slice(history[..|history| - 1], lo, hi)
      + if lo <= history[|history| - 1].ledger < hi then [history[|history| - 1]] else []
  }

  function IsDecodable(): Event -> bool {
    (e: Event) => e.decodable
  }

  function IsIn(lo: int, hi: int): Event -> bool {
    (e: Event) => lo <= e.ledger < hi
  }

  function IsDue(lo: int, hi: int): Event -> bool {
    (e: Event) => e.decodable && lo <= e.ledger < hi
  }

  /** What a reply delivers: its decodable events, each of them and no other, in its order. */
  lemma {:induction false} DecodableFilters(events: seq<Event>)
    ensures Filtered(Decodable(events), events, IsDecodable())
  {
    if events == [] {
      NothingFiltered(IsDecodable());
    } else {
      var n := |events| - 1;
      DecodableFilters(events[..n]);
      FilteredAppends(Decodable(events[..n]), events[..n], IsDecodable(), events[n]);
      assert events == events[..n] + [events[n]];
    }
  }

  lemma {:induction false} SliceFilters(history: seq<Event>, lo: int, hi: int)
    ensures Filtered(Slice(history, lo, hi), history, IsIn(lo, hi))
  {
    if history == [] {
      NothingFiltered(IsIn(lo, hi));
    } else {
      var n := |history| - 1;
      SliceFilters(history[..n], lo, hi);
      FilteredAppends(Slice(history[..n], lo, hi), history[..n], IsIn(lo, hi), history[n]);
      assert history == history[..n] + [history[n]];
    }
  }

  lemma DecodableAppends(events: seq<Event>, e: Event)
    ensures Decodable(events + [e]) == Decodable(events) + if e.decodable then [e] else []
  {
    assert (events + [e])[..|events|] == events;
  }

  function Only(due: bool, e: Event): seq<Event> {
    if due then [e] else []
  }

  lemma DueAppends(history: seq<Event>, e: Event, lo: int, hi: int)
    ensures Decodable(Slice(history + [e], lo, hi)) == Decodable(Slice(history, lo, hi)) + Only(IsDue(lo, hi)(e), e)
  {
    assert (history + [e])[..|history|] == history;
    var s := Slice(history, lo, hi);
    if lo <= e.ledger < hi {
      DecodableAppends(s, e);
    } else {
      assert s + [] == s && Decodable(s) + [] == Decodable(s);
    }
  }

  /** `due` is the history, filtered, with every event that is due as often as it is there. */
  ghost predicate DeliversDue(due: seq<Event>, history: seq<Event>, lo: int, hi: int) {
    && Filtered(due, history, IsDue(lo, hi))
    && forall e :: multiset(due)[e] == if e.decodable && lo <= e.ledger < hi then multiset(history)[e] else 0
  }

  lemma DueGoesOn(due: seq<Event>, history: seq<Event>, e: Event, lo: int, hi: int)
    requires DeliversDue(due, history, lo, hi)
    ensures DeliversDue(due + Only(IsDue(lo, hi)(e), e), history + [e], lo, hi)
  {
    FilteredAppends(due, history, IsDue(lo, hi), e);
  }

  /** The decodable part of a slice. */
  lemma {:induction false} SliceIsDue(history: seq<Event>, lo: int, hi: int)
    ensures DeliversDue(Decodable(Slice(history, lo, hi)), history, lo, hi)
  {
    if history == [] {
      NothingFiltered(IsDue(lo, hi));
    } else {
      var n := |history| - 1;
      var before, last := history[..n], history[n];
      SliceIsDue(before, lo, hi);
      DueGoesOn(Decodable(Slice(before, lo, hi)), before, last, lo, hi);
      assert before + [last] == history;
      DueAppends(before, last, lo, hi);
    }
  }

  /** The reply holds every event from the cursor on, up to and including some whole ledger, and none later. */
  ghost predicate CompleteThrough(history: seq<Event>, lastLedger: int, reply: seq<Event>, through: int) {
    reply == Slice(history, lastLedger, through + 1)
  }

  /** Every successful reply of the run is complete for the cursor it answers. */
  ghost predicate AllComplete(history: seq<Event>, c: Cursor, replies: seq<Option<seq<Event>>>)
    decreases |replies|
  {
    replies != [] ==>
      && (replies[0].Some? ==> exists through :: CompleteThrough(history, c.lastLedger, replies[0].value, through))
      && AllComplete(history, Poll(c, replies[0]), replies[1..])
  }

  lemma {:induction false} AdvanceOverSlice(history: seq<Event>, lo: int, hi: int)
    requires Ordered(history)
    ensures var next := Advance(lo, Slice(history, lo, hi));
      lo <= next <= Max(lo, hi) && Slice(history, lo, next) == Slice(history, lo, hi)
  {
    if history != [] {
      var n := |history| - 1;
      var prefix, last := history[..n], history[n];
      AdvanceOverSlice(prefix, lo, hi);
      var s := Slice(prefix, lo, hi);
      if lo <= last.ledger < hi {
        assert (s + [last])[..|s|] == s;
        SliceReachesLast(prefix, lo, hi, last.ledger + 1);
      } else {
        assert s + [] == s;
        SliceStops(prefix, lo, hi, last.ledger);
      }
    }
  }

  /** If no event lies at or above `top`, cutting at `top` or later makes no difference. */
  lemma {:induction false} SliceReachesLast(history: seq<Event>, lo: int, hi: int, top: int)
    requires forall i :: 0 <= i < |history| ==> history[i].ledger < top
    requires top <= hi
    ensures Slice(history, lo, top) == Slice(history, lo, hi)
  {
    if history != [] {
      SliceReachesLast(history[..|history| - 1], lo, hi, top);
    }
  }

  /** An event outside the slice is not let in by the advanced cursor either. */
  lemma {:induction false} SliceStops(history: seq<Event>, lo: int, hi: int, ledger: int)
    requires ledger < lo || hi <= ledger
    ensures !(lo <= ledger < Advance(lo, Slice(history, lo, hi)))
  {
    if history != [] {
      var before, last := history[..|history| - 1], history[|history| - 1];
      SliceStops(before, lo, hi, ledger);
      if lo <= last.ledger < hi {
        SliceLast(history, lo, hi);
        AdvanceAppends(lo, Slice(before, lo, hi), last);
      } else {
        assert Slice(before, lo, hi) + [] == Slice(before, lo, hi);
      }
    }
  }

  lemma AdvanceAppends(lastLedger: int, events: seq<Event>, e: Event)
    ensures Advance(lastLedger, events + [e]) == Max(Advance(lastLedger, events), e.ledger + 1)
  {
    assert (events + [e])[..|events|] == events;
  }

  lemma {:induction false} SliceJoins(history: seq<Event>, lo: int, mid: int, hi: int)
    requires Ordered(history) && lo <= mid <= hi
    ensures Slice(history, lo, mid) + Slice(history, mid, hi) == Slice(history, lo, hi)
  {
    if history != [] {
      var n := |history| - 1;
      var before, last := history[..n], [history[n]];
      SliceJoins(before, lo, mid, hi);
      if history[n].ledger < mid {
        SliceIsEmpty(before, mid, hi);
        SliceIsEmpty(history, mid, hi);
      } else if history[n].ledger < hi {
        SliceLast(history, mid, hi);
        SliceLast(history, lo, hi);
        assert Slice(before, lo, mid) + (Slice(before, mid, hi) + last) == Slice(before, lo, hi) + last;
      }
    }
  }

  lemma SliceLast(history: seq<Event>, lo: int, hi: int)
    requires history != [] && lo <= history[|history| - 1].ledger < hi
    ensures Slice(history, lo, hi) == Slice(history[..|history| - 1], lo, hi) + [history[|history| - 1]]
  {
  }

  lemma {:induction false} SliceIsEmpty(history: seq<Event>, lo: int, hi: int)
    requires forall i :: 0 <= i < |history| ==> history[i].ledger < lo
    ensures Slice(history, lo, hi) == []
  {
    if history != [] {
      SliceIsEmpty(history[..|history| - 1], lo, hi);
    }
  }

  lemma {:induction false} DecodableJoins(xs: seq<Event>, ys: seq<Event>)
    ensures Decodable(xs + ys) == Decodable(xs) + Decodable(ys)
  {
    if ys == [] {
      assert xs + ys == xs;
    } else {
      assert (xs + ys)[..|xs + ys| - 1] == xs + ys[..|ys| - 1];
      DecodableJoins(xs, ys[..|ys| - 1]);
    }
  }

  lemma {:induction false} RunKeepsDelivery(history: seq<Event>, start: int, c: Cursor,
                                            replies: seq<Option<seq<Event>>>)
    requires Ordered(history) && start <= c.lastLedger
    requires c.delivered == Decodable(Slice(history, start, c.lastLedger))
    requires AllComplete(history, c, replies)
    ensures var d := PollAll(c, replies);
      c.lastLedger <= d.lastLedger && d.delivered == Decodable(Slice(history, start, d.lastLedger))
    decreases |replies|
  {
    if replies != [] {
      if replies[0].Some? {
        var through :| CompleteThrough(history, c.lastLedger, replies[0].value, through);
        AdvanceOverSlice(history, c.lastLedger, through + 1);
        var next := Advance(c.lastLedger, replies[0].value);
        SliceJoins(history, start, c.lastLedger, next);
        DecodableJoins(Slice(history, start, c.lastLedger), Slice(history, c.lastLedger, next));
      }
      RunKeepsDelivery(history, start, Poll(c, replies[0]), replies[1..]);
    }
  }

  lemma {:induction false} SliceOfNothing(history: seq<Event>, lo: int)
    ensures Slice(history, lo, lo) == []
  {
    if history != [] {
      SliceOfNothing(history[..|history| - 1], lo);
    }
  }

  /**
   If every successful reply is complete up to some ledger, then whatever polls fail, the
   subscriber has delivered exactly the decodable events of start <= ledger < lastLedger,
   each as often as it is in the history, and in the order of the history.
   */
  lemma DeliversExactlyOnce(history: seq<Event>, start: int, replies: seq<Option<seq<Event>>>)
    requires Ordered(history) && AllComplete(history, Cursor(start, []), replies)
    ensures var d := PollAll(Cursor(start, []), replies);
      && start <= d.lastLedger
      && (forall e :: e in d.delivered ==> e.decodable && start <= e.ledger < d.lastLedger)
      && DeliversDue(d.delivered, history, start, d.lastLedger)
  {
    SliceOfNothing(history, start);
    RunKeepsDelivery(history, start, Cursor(start, []), replies);
    var d := PollAll(Cursor(start, []), replies);
    SliceIsDue(history, start, d.lastLedger);
    forall e | e in d.delivered ensures IsDue(start, d.lastLedger)(e) {
      FilteredHolds(d.delivered, history, IsDue(start, d.lastLedger), e);
    }
  }

  // --- Replies that are cut inside a ledger ---

  /** From the cursor on, a reply may also stop after any number of events. */
  ghost predicate Stretch(history: seq<Event>, lastLedger: int, reply: seq<Event>, i: nat, j: nat) {
    && i <= j <= |history| && reply == history[i..j]
    && (forall k :: 0 <= k < i ==> history[k].ledger < lastLedger)
    && (forall k :: i <= k < |history| ==> lastLedger <= history[k].ledger)
  }

  lemma {:induction false} AdvanceOfStretch(history: seq<Event>, lastLedger: int, i: nat, j: nat)
    requires i <= j <= |history|
    requires Ordered(history) && Stretch(history, lastLedger, history[i..j], i, j)
    ensures Advance(lastLedger, history[i..j]) == if i == j then lastLedger else history[j - 1].ledger + 1
    decreases j
  {
    if i < j {
      AdvanceOfStretch(history, lastLedger, i, j - 1);
      assert history[i..j][..j - i - 1] == history[i..j - 1];
    }
  }

  /**
   A reply that stops early loses nothing exactly when it does not stop inside a ledger:
   the next event, if there is one, is at or above the new cursor.
   */
  lemma CutLosesNothingIff(history: seq<Event>, lastLedger: int, reply: seq<Event>, i: nat, j: nat)
    requires Ordered(history) && Stretch(history, lastLedger, reply, i, j)
    ensures (forall k :: j <= k < |history| ==> Advance(lastLedger, reply) <= history[k].ledger)
            <==> i == j || j == |history| || history[j - 1].ledger < history[j].ledger
  {
    AdvanceOfStretch(history, lastLedger, i, j);
  }

  lemma {:induction false} DecodableIsPart(events: seq<Event>, e: Event)
    requires e in Decodable(events)
    ensures e in events
  {
    if e in Decodable(events[..|events| - 1]) {
      DecodableIsPart(events[..|events| - 1], e);
    }
  }

  lemma {:induction false} AdvanceNeverGoesBack(lastLedger: int, reply: seq<Event>)
    ensures lastLedger <= Advance(lastLedger, reply)
  {
    if reply != [] {
      AdvanceNeverGoesBack(lastLedger, reply[..|reply| - 1]);
    }
  }

  /** No reply of the run holds an event below the cursor that it answers; it may stop anywhere. */
  ghost predicate NeverBelow(c: Cursor, replies: seq<Option<seq<Event>>>)
    decreases |replies|
  {
    replies != [] ==>
      && (replies[0].Some? ==> forall e :: e in replies[0].value ==> c.lastLedger <= e.ledger)
      && NeverBelow(Poll(c, replies[0]), replies[1..])
  }

  /** What a cut has left below the cursor is never delivered, however many polls follow, cut or complete. */
  lemma {:induction false} SkippedIsLost(c: Cursor, replies: seq<Option<seq<Event>>>, e: Event)
    requires NeverBelow(c, replies)
    requires e.ledger < c.lastLedger && e !in c.delivered
    ensures e !in PollAll(c, replies).delivered
    decreases |replies|
  {
    if replies != [] {
      if replies[0].Some? {
        var reply := replies[0].value;
        AdvanceNeverGoesBack(c.lastLedger, reply);
        if e in Decodable(reply) {
          DecodableIsPart(reply, e);
          assert false;
        }
      }
      SkippedIsLost(Poll(c, replies[0]), replies[1..], e);
    }
  }

  /** Two events of one ledger, a reply that stops after the first: the second is never delivered. */
  lemma CutLedgerLosesEvent()
    ensures
      var first, second := Event(5, 0, true), Event(5, 1, true);
      var d := PollAll(Cursor(5, []), [Some([first])]);
      && Stretch([first, second], 5, [first], 0, 1)
      && d == Cursor(6, [first])
      && forall replies :: NeverBelow(d, replies) ==> second !in PollAll(d, replies).delivered
  {
    var first, second := Event(5, 0, true), Event(5, 1, true);
    var d := Cursor(6, [first]);
    assert [first][..0] == [];
    assert Advance(5, [first]) == 6 && Decodable([first]) == [first];
    assert [Some([first])][1..] == [];
    assert PollAll(Cursor(5, []), [Some([first])]) == PollAll(d, []);
    forall replies | NeverBelow(d, replies) ensures second !in PollAll(d, replies).delivered {
      SkippedIsLost(d, replies, second);
    }
  }
}
