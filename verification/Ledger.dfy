/**
 Ledger arithmetic of indexer/src/ledger.ts: token events, their signed
 deltas, and the fold of a stream of events into balances and a supply.
 */
module Ledger {
  import opened MapSums
  import opened Permutations

  type Address = string

  datatype LedgerEvent =
    | Mint(to: Address, amount: int)
    | Transfer(from: Address, to: Address, amount: int)
    | Burn(from: Address, amount: int)

  datatype Delta = Delta(address: Address, delta: int)

  type Balances = map<Address, int>

  datatype State = State(balances: Balances, supply: int)

  function DeltasFor(e: LedgerEvent): seq<Delta> {
    match e
    case Mint(to, amount) => [Delta(to, amount)]
    case Burn(from, amount) => [Delta(from, -amount)]
    case Transfer(from, to, amount) => [Delta(from, -amount), Delta(to, amount)]
  }

  function SupplyDeltaFor(e: LedgerEvent): int {
    match e
    case Mint(_, amount) => amount
    case Burn(_, amount) => -amount
    case Transfer(_, _, _) => 0
  }

  /** One signed delta: an entry that reaches zero is dropped. */
  function Move(b: Balances, d: Delta): Balances {
    var next := Get(b, d.address) + d.delta;
    if next == 0 then b - {d.address} else b[d.address := next]
  }

  function Moves(b: Balances, ds: seq<Delta>): Balances {
    if ds == [] then b else Move(Moves(b, ds[..|ds| - 1]), ds[|ds| - 1])
  }

  function Apply(s: State, e: LedgerEvent): State {
    State(Moves(s.balances, DeltasFor(e)), s.supply + SupplyDeltaFor(e))
  }

  function Fold(events: seq<LedgerEvent>): State {
    if events == [] then State(map[], 0)
    else Apply(Fold(events[..|events| - 1]), events[|events| - 1])
  }

  /** The accumulator that the source updates in place while it folds. */
  class Accumulator {
    var balances: Balances
    var supply: int

    constructor ()
      ensures balances == map[] && supply == 0
    {
      balances, supply := map[], 0;
    }

    method ApplyLedgerEvent(e: LedgerEvent)
      modifies this
      ensures State(balances, supply) == Apply(old(State(balances, supply)), e)
    {
      var deltas := DeltasFor(e);
      for i := 0 to |deltas|
        invariant balances == Moves(old(balances), deltas[..i]) && supply == old(supply)
      {
        var address, delta := deltas[i].address, deltas[i].delta;
        var next := Get(balances, address) + delta;
        assert deltas[..i + 1][..i] == deltas[..i];
        if next == 0 {
          balances := balances - {address};
        } else {
          balances := balances[address := next];
        }
      }
      assert deltas[..|deltas|] == deltas;
      supply := supply + SupplyDeltaFor(e);
    }
  }

  method FoldLedgerEvents(events: seq<LedgerEvent>) returns (balances: Balances, supply: int)
    ensures State(balances, supply) == Fold(events)
  {
    var state := new Accumulator();
    for i := 0 to |events|
      invariant fresh(state)
      invariant State(state.balances, state.supply) == Fold(events[..i])
    {
      state.ApplyLedgerEvent(events[i]);
      assert events[..i + 1][..i] == events[..i];
    }
    assert events[..|events|] == events;
    balances, supply := state.balances, state.supply;
  }

  // --- Reference definition: what one address gains over a list of events ---

  function NetOf(e: LedgerEvent, a: Address): int {
    match e
    case Mint(to, amount) => if a == to then amount else 0
    case Burn(from, amount) => if a == from then -amount else 0
    case Transfer(from, to, amount) =>
      (if a == to then amount else 0) - (if a == from then amount else 0)
  }

  function Net(events: seq<LedgerEvent>, a: Address): int {
    if events == [] then 0
    else NetOf(events[0], a) + Net(events[1..], a)
  }

  lemma {:induction false} NetConcat(xs: seq<LedgerEvent>, ys: seq<LedgerEvent>, a: Address)
    ensures Net(xs + ys, a) == Net(xs, a) + Net(ys, a)
  {
    if xs == [] {
      assert xs + ys == ys;
    } else {
      assert (xs + ys)[1..] == xs[1..] + ys;
      NetConcat(xs[1..], ys, a);
    }
  }

  /** `b` lists exactly the addresses whose net gain is not zero. */
  ghost predicate Reflects(b: Balances, events: seq<LedgerEvent>) {
    forall a: Address :: Get(b, a) == Net(events, a) && (a in b <==> Net(events, a) != 0)
  }

  ghost predicate NoZeroEntry(b: Balances) {
    forall a :: a in b ==> b[a] != 0
  }

  /** The deltas of one event, applied from left to right without the recursion. */
  lemma MovesOfEvent(b: Balances, e: LedgerEvent)
    ensures var ds := DeltasFor(e);
      Moves(b, ds) == if e.Transfer? then Move(Move(b, ds[0]), ds[1]) else Move(b, ds[0])
  {
    var ds := DeltasFor(e);
    assert ds[..1][..0] == [];
    assert Moves(b, ds[..1]) == Move(b, ds[0]);
    assert e.Transfer? || ds[..1] == ds;
  }

  lemma MoveShiftsOne(b: Balances, d: Delta, a: Address)
    requires NoZeroEntry(b)
    ensures NoZeroEntry(Move(b, d))
    ensures Get(Move(b, d), a) == Get(b, a) + if a == d.address then d.delta else 0
  {
  }

  lemma ApplyMovesByNet(b: Balances, e: LedgerEvent, a: Address)
    requires NoZeroEntry(b)
    ensures NoZeroEntry(Moves(b, DeltasFor(e)))
    ensures Get(Moves(b, DeltasFor(e)), a) == Get(b, a) + NetOf(e, a)
  {
    var ds := DeltasFor(e);
    MovesOfEvent(b, e);
    MoveShiftsOne(b, ds[0], a);
    if e.Transfer? {
      MoveShiftsOne(Move(b, ds[0]), ds[1], a);
    }
  }

  /** Each address ends with exactly the sum of its signed deltas, and no zero entry is kept. */
  lemma {:induction false} FoldReflectsNet(events: seq<LedgerEvent>)
    ensures Reflects(Fold(events).balances, events)
  {
    if events != [] {
      var n := |events| - 1;
      FoldReflectsNet(events[..n]);
      forall a: Address
        ensures Net(events, a) == Net(events[..n], a) + NetOf(events[n], a)
        ensures NoZeroEntry(Fold(events).balances)
        ensures Get(Fold(events).balances, a) == Get(Fold(events[..n]).balances, a) + NetOf(events[n], a)
      {
        ApplyMovesByNet(Fold(events[..n]).balances, events[n], a);
        NetConcat(events[..n], [events[n]], a);
        assert events == events[..n] + [events[n]];
        assert Net([events[n]], a) == NetOf(events[n], a);
      }
    }
  }

  lemma ReflectsIsUnique(b: Balances, c: Balances, xs: seq<LedgerEvent>, ys: seq<LedgerEvent>)
    requires Reflects(b, xs) && Reflects(c, ys)
    requires forall a :: Net(xs, a) == Net(ys, a)
    ensures b == c
  {
    forall a
      ensures (a in b <==> a in c) && (a in b ==> b[a] == c[a])
    {
      assert Get(b, a) == Get(c, a);
    }
  }

  lemma {:induction false} NetPermuted(xs: seq<LedgerEvent>, ys: seq<LedgerEvent>, a: Address)
    requires multiset(xs) == multiset(ys)
    ensures Net(xs, a) == Net(ys, a)
    decreases |xs|
  {
    if xs == [] {
      assert |multiset(ys)| == |ys|;
    } else {
      assert xs[0] in multiset(xs);
      var pre, post := Pluck(ys, xs[0]);
      HeadTail(xs);
      NetPermuted(xs[1..], pre + post, a);
      NetConcat(pre, post, a);
      NetConcat(pre + [xs[0]], post, a);
      NetConcat(pre, [xs[0]], a);
      assert Net([xs[0]], a) == NetOf(xs[0], a);
    }
  }

  lemma {:induction false} SupplyIsSumOfBalances(events: seq<LedgerEvent>)
    ensures Sum(Fold(events).balances) == Fold(events).supply
  {
    if events != [] {
      var n := |events| - 1;
      SupplyIsSumOfBalances(events[..n]);
      MovesShiftSum(Fold(events[..n]).balances, events[n]);
    }
  }

  lemma MoveShiftsSum(b: Balances, d: Delta)
    ensures Sum(Move(b, d)) == Sum(b) + d.delta
  {
    SumRemove(b, d.address);
    SumUpdate(b, d.address, Get(b, d.address) + d.delta);
  }

  lemma MovesShiftSum(b: Balances, e: LedgerEvent)
    ensures Sum(Moves(b, DeltasFor(e))) == Sum(b) + SupplyDeltaFor(e)
  {
    var ds := DeltasFor(e);
    MovesOfEvent(b, e);
    MoveShiftsSum(b, ds[0]);
    if e.Transfer? {
      MoveShiftsSum(Move(b, ds[0]), ds[1]);
    }
  }

  /** The fold does not depend on the order in which the events arrive. */
  lemma FoldIsOrderIndependent(xs: seq<LedgerEvent>, ys: seq<LedgerEvent>)
    requires multiset(xs) == multiset(ys)
    ensures Fold(xs) == Fold(ys)
  {
    FoldReflectsNet(xs);
    FoldReflectsNet(ys);
    forall a ensures Net(xs, a) == Net(ys, a) { NetPermuted(xs, ys, a); }
    ReflectsIsUnique(Fold(xs).balances, Fold(ys).balances, xs, ys);
    SupplyIsSumOfBalances(xs);
    SupplyIsSumOfBalances(ys);
  }

  ghost predicate KeepsOnlyPositive(b: Balances) {
    forall a :: a in b ==> 0 < b[a]
  }

  /** No address has been debited more than it was credited. */
  ghost predicate NeverOverdrawn(events: seq<LedgerEvent>) {
    forall a: Address :: 0 <= Net(events, a)
  }

  /** Every balance kept is positive exactly when no address is overdrawn. */
  lemma FoldKeepsOnlyPositiveIff(events: seq<LedgerEvent>)
    ensures KeepsOnlyPositive(Fold(events).balances) <==> NeverOverdrawn(events)
  {
    var b := Fold(events).balances;
    FoldReflectsNet(events);
    forall a: Address ensures Get(b, a) == Net(events, a) && (a in b <==> Net(events, a) != 0) {}
    if KeepsOnlyPositive(b) {
      forall a: Address ensures 0 <= Net(events, a) {
        assert a in b ==> 0 < b[a];
      }
    }
  }

  /** A burn of 1 from an address that owns nothing is kept as -1. */
  lemma BurnOfNothingIsKept()
    ensures Fold([Burn("a", 1)]).balances == map["a" := -1]
    ensures !KeepsOnlyPositive(Fold([Burn("a", 1)]).balances)
  {
    var events := [Burn("a", 1)];
    assert events[..0] == [];
    MovesOfEvent(map[], events[0]);
    assert Fold(events).balances["a"] == -1;
  }
}
