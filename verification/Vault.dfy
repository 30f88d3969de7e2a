/**
 Share accounting of the in-memory vault (sdk/src/mockClient.ts). Amounts are
 unbounded integers; division truncates, as on the source's big integers.
 */
module Vault {
  import opened Wrappers
  import opened MapSums
  import opened Arithmetic

  datatype VaultError =
    | InvalidAmount
    | SlippageExceeded
    | InsufficientBalance
    | ZeroShares
    | DivisionByZero

  type Receipt = Result<int, VaultError>

  datatype State = State(shares: map<string, int>, totalShares: int, totalAssets: int, pendingRewards: int)

  const NEW_VAULT := State(map[], 0, 0, 0)

  function SharesFor(v: State, amount: int): int
    requires v.totalShares != 0 ==> v.totalAssets != 0
  {
    if v.totalShares == 0 then amount else TruncDiv(amount * v.totalShares, v.totalAssets)
  }

  function AssetsFor(v: State, shares: int): int
    requires v.totalShares != 0
  {
    TruncDiv(shares * v.totalAssets, v.totalShares)
  }

  function CalculateRewards(v: State, shares: int): Receipt {
    if shares < 0 then Failure(InvalidAmount)
    else if v.totalShares == 0 then Failure(ZeroShares)
    else Success(AssetsFor(v, shares))
  }

  function Deposit(v: State, caller: string, amount: int, minSharesOut: int): (State, Receipt) {
    if amount <= 0 then (v, Failure(InvalidAmount))
    else if v.totalShares != 0 && v.totalAssets == 0 then (v, Failure(DivisionByZero))
    else
      var out := SharesFor(v, amount);
      if out <= 0 then (v, Failure(InvalidAmount))
      else if out < minSharesOut then (v, Failure(SlippageExceeded))
      else
        (v.(shares := v.shares[caller := Get(v.shares, caller) + out],
            totalShares := v.totalShares + out,
            totalAssets := v.totalAssets + amount),
         Success(out))
  }

  function Withdraw(v: State, caller: string, shares: int, minTokensOut: int): (State, Receipt) {
    if shares <= 0 then (v, Failure(InvalidAmount))
    else if Get(v.shares, caller) < shares then (v, Failure(InsufficientBalance))
    else if v.totalShares == 0 then (v, Failure(ZeroShares))
    else
      var out := AssetsFor(v, shares);
      if out <= 0 then (v, Failure(InvalidAmount))
      else if out < minTokensOut then (v, Failure(SlippageExceeded))
      else
        (v.(shares := v.shares[caller := Get(v.shares, caller) - shares],
            totalShares := v.totalShares - shares,
            totalAssets := v.totalAssets - out),
         Success(out))
  }

  function DistributeRewards(v: State, amount: int): (State, Receipt) {
    if amount <= 0 then (v, Failure(InvalidAmount))
    else (v.(totalAssets := v.totalAssets + amount, pendingRewards := v.pendingRewards + amount), Success(0))
  }

  function Compound(v: State): State {
    v.(pendingRewards := 0)
  }

  function Transfer(v: State, from: string, to: string, amount: int): (State, Receipt) {
    if Get(v.shares, from) < amount then (v, Failure(InsufficientBalance))
    else
      var debited := v.shares[from := Get(v.shares, from) - amount];
      (v.(shares := debited[to := Get(debited, to) + amount]), Success(0))
  }

  class MockVaultClient {
    var shareBalances: map<string, int>
    var totalShares: int
    var totalAssetsAmount: int
    var pendingRewardsAmount: int

    ghost function View(): State
      reads this
    {
      State(shareBalances, totalShares, totalAssetsAmount, pendingRewardsAmount)
    }

    constructor ()
      ensures View() == NEW_VAULT
    {
      shareBalances := map[];
      totalShares, totalAssetsAmount, pendingRewardsAmount := 0, 0, 0;
    }

    method DoDeposit(caller: string, amount: int, minSharesOut: int) returns (r: Receipt)
      modifies this
      ensures (View(), r) == Deposit(old(View()), caller, amount, minSharesOut)
    {
      if amount <= 0 { return Failure(InvalidAmount); }
      if totalShares != 0 && totalAssetsAmount == 0 { return Failure(DivisionByZero); }
      var sharesOut := if totalShares == 0 then amount else TruncDiv(amount * totalShares, totalAssetsAmount);
      if sharesOut <= 0 { return Failure(InvalidAmount); }
      if sharesOut < minSharesOut { return Failure(SlippageExceeded); }
      shareBalances := shareBalances[caller := Get(shareBalances, caller) + sharesOut];
      totalShares := totalShares + sharesOut;
      totalAssetsAmount := totalAssetsAmount + amount;
      return Success(sharesOut);
    }

    method DoWithdraw(caller: string, shares: int, minTokensOut: int) returns (r: Receipt)
      modifies this
      ensures (View(), r) == Withdraw(old(View()), caller, shares, minTokensOut)
    {
      if shares <= 0 { return Failure(InvalidAmount); }
      var userBalance := Get(shareBalances, caller);
      if userBalance < shares { return Failure(InsufficientBalance); }
      if totalShares == 0 { return Failure(ZeroShares); }
      var tokensOut := TruncDiv(shares * totalAssetsAmount, totalShares);
      if tokensOut <= 0 { return Failure(InvalidAmount); }
      if tokensOut < minTokensOut { return Failure(SlippageExceeded); }
      shareBalances := shareBalances[caller := userBalance - shares];
      totalShares := totalShares - shares;
      totalAssetsAmount := totalAssetsAmount - tokensOut;
      return Success(tokensOut);
    }

    method DoDistributeRewards(amount: int) returns (r: Receipt)
      modifies this
      ensures (View(), r) == DistributeRewards(old(View()), amount)
    {
      if amount <= 0 { return Failure(InvalidAmount); }
      totalAssetsAmount := totalAssetsAmount + amount;
      pendingRewardsAmount := pendingRewardsAmount + amount;
      return Success(0);
    }

    method DoCompound()
      modifies this
      ensures View() == Compound(old(View()))
    {
      pendingRewardsAmount := 0;
    }

    method DoTransfer(from: string, to: string, amount: int) returns (r: Receipt)
      modifies this
      ensures (View(), r) == Transfer(old(View()), from, to, amount)
    {
      var fromBalance := Get(shareBalances, from);
      if fromBalance < amount { return Failure(InsufficientBalance); }
      shareBalances := shareBalances[from := fromBalance - amount];
      shareBalances := shareBalances[to := Get(shareBalances, to) + amount];
      return Success(0);
    }
  }

  // --- Runs ---

  datatype Op =
    | DepositOp(caller: string, amount: int, minOut: int)
    | WithdrawOp(caller: string, shares: int, minOut: int)
    | RewardOp(amount: int)
    | CompoundOp
    | TransferOp(from: string, to: string, amount: int)

  function Step(v: State, op: Op): State {
    match op
    case DepositOp(c, a, m) => Deposit(v, c, a, m).0
    case WithdrawOp(c, s, m) => Withdraw(v, c, s, m).0
    case RewardOp(a) => DistributeRewards(v, a).0
    case CompoundOp => Compound(v)
    case TransferOp(f, t, a) => Transfer(v, f, t, a).0
  }

  function Run(v: State, ops: seq<Op>): State
    decreases |ops|
  {
    if ops == [] then v else Run(Step(v, ops[0]), ops[1..])
  }

  ghost predicate NonNegative(m: map<string, int>) {
    forall k :: k in m ==> m[k] >= 0
  }

  /** Balances add up to the outstanding shares, and outstanding shares are backed by assets. */
  ghost predicate Sound(v: State) {
    && NonNegative(v.shares)
    && Sum(v.shares) == v.totalShares
    && 0 <= v.totalAssets
    && (0 < v.totalShares ==> 0 < v.totalAssets)
  }

  ghost predicate NoNegativeTransfer(ops: seq<Op>) {
    forall i :: 0 <= i < |ops| && ops[i].TransferOp? ==> ops[i].amount >= 0
  }

  lemma {:induction false} SumIsNonNegative(m: map<string, int>)
    requires NonNegative(m)
    ensures Sum(m) >= 0
    decreases |m|
  {
    if m != map[] {
      var k :| k in m && Sum(m) == m[k] + Sum(m - {k});
      SumIsNonNegative(m - {k});
    }
  }

  lemma BalanceIsAtMostTotal(v: State, caller: string)
    requires Sound(v)
    ensures 0 <= Get(v.shares, caller) <= v.totalShares
  {
    SumIsNonNegative(v.shares);
    if caller in v.shares {
      SumSplit(v.shares, caller);
      SumIsNonNegative(v.shares - {caller});
    }
  }

  /** The truncated quotient of non-negative numbers, as bounds on a product. */
  lemma QuotientBounds(a: int, b: int)
    requires 0 <= a && 0 < b
    ensures 0 <= TruncDiv(a, b)
    ensures TruncDiv(a, b) * b <= a < TruncDiv(a, b) * b + b
  {
    assert a == (a / b) * b + a % b;
  }

  lemma QuotientIsGreatest(a: int, b: int, q: int)
    requires 0 <= a && 0 < b && q * b <= a
    ensures q <= TruncDiv(a, b)
  {
    QuotientBounds(a, b);
    assert (TruncDiv(a, b) + 1) * b == TruncDiv(a, b) * b + b;
    MulLessCancel(q, TruncDiv(a, b) + 1, b);
  }

  lemma FullPayout(a: int, s: int)
    requires 0 < a && 0 < s
    ensures TruncDiv(s * a, s) == a
  {
    QuotientIsGreatest(s * a, s, a);
    QuotientBounds(s * a, s);
    MulCancel(TruncDiv(s * a, s), a, s);
  }

  lemma PartialPayout(a: int, s: int, n: int)
    requires 0 < a && 0 < n < s
    ensures 0 <= TruncDiv(n * a, s) < a
  {
    MulMonotone(0, n, a);
    MulMonotone(n, s - 1, a);
    assert (s - 1) * a == a * s - a;
    QuotientBounds(n * a, s);
    MulLessCancel(TruncDiv(n * a, s), a, s);
  }

  /** What a withdrawal takes: all assets for all shares, and some assets stay for the shares that stay. */
  lemma PayoutBounds(v: State, shares: int)
    requires Sound(v) && 0 < shares <= v.totalShares
    ensures 0 <= AssetsFor(v, shares) <= v.totalAssets
    ensures AssetsFor(v, shares) == v.totalAssets <==> shares == v.totalShares
  {
    if shares == v.totalShares {
      FullPayout(v.totalAssets, shares);
    } else {
      PartialPayout(v.totalAssets, v.totalShares, shares);
    }
  }

  lemma DepositKeepsSound(v: State, caller: string, amount: int, minOut: int)
    requires Sound(v)
    ensures Sound(Deposit(v, caller, amount, minOut).0)
    ensures Deposit(v, caller, amount, minOut).1 != Failure(DivisionByZero)
  {
    BalanceIsAtMostTotal(v, caller);
    var r := Deposit(v, caller, amount, minOut).1;
    if r.Success? {
      SumUpdate(v.shares, caller, Get(v.shares, caller) + r.value);
    }
  }

  lemma WithdrawKeepsSound(v: State, caller: string, shares: int, minOut: int)
    requires Sound(v)
    ensures Sound(Withdraw(v, caller, shares, minOut).0)
  {
    BalanceIsAtMostTotal(v, caller);
    if Withdraw(v, caller, shares, minOut).1.Success? {
      SumUpdate(v.shares, caller, Get(v.shares, caller) - shares);
      PayoutBounds(v, shares);
    }
  }

  lemma TransferKeepsSound(v: State, from: string, to: string, amount: int)
    requires Sound(v) && 0 <= amount
    ensures Sound(Transfer(v, from, to, amount).0)
  {
    if amount <= Get(v.shares, from) {
      var debited := v.shares[from := Get(v.shares, from) - amount];
      SumUpdate(v.shares, from, Get(v.shares, from) - amount);
      SumUpdate(debited, to, Get(debited, to) + amount);
    }
  }

  lemma StepKeepsSound(v: State, op: Op)
    requires Sound(v) && (op.TransferOp? ==> op.amount >= 0)
    ensures Sound(Step(v, op))
    ensures op.DepositOp? ==> Deposit(v, op.caller, op.amount, op.minOut).1 != Failure(DivisionByZero)
  {
    match op
    case DepositOp(c, a, m) => DepositKeepsSound(v, c, a, m);
    case WithdrawOp(c, s, m) => WithdrawKeepsSound(v, c, s, m);
    case RewardOp(_) =>
    case CompoundOp =>
    case TransferOp(f, t, a) => TransferKeepsSound(v, f, t, a);
  }

  /** Every run with non-negative transfers keeps the books sound. */
  lemma {:induction false} RunKeepsSound(v: State, ops: seq<Op>)
    requires Sound(v) && NoNegativeTransfer(ops)
    ensures Sound(Run(v, ops))
    decreases |ops|
  {
    if ops != [] {
      StepKeepsSound(v, ops[0]);
      RunKeepsSound(Step(v, ops[0]), ops[1..]);
    }
  }

  /** In particular every run of a new vault: no deposit in it can divide by zero. */
  lemma NewVaultRunsAreSound(ops: seq<Op>, caller: string, amount: int, minOut: int)
    requires NoNegativeTransfer(ops)
    ensures Sound(Run(NEW_VAULT, ops))
    ensures Deposit(Run(NEW_VAULT, ops), caller, amount, minOut).1 != Failure(DivisionByZero)
  {
    RunKeepsSound(NEW_VAULT, ops);
    StepKeepsSound(Run(NEW_VAULT, ops), DepositOp(caller, amount, minOut));
  }

  /** A successful transfer keeps the balances non-negative exactly when the receiver can bear it. */
  lemma TransferKeepsNonNegativeIff(v: State, from: string, to: string, amount: int)
    requires NonNegative(v.shares) && Transfer(v, from, to, amount).1.Success?
    ensures NonNegative(Transfer(v, from, to, amount).0.shares)
            <==> from == to || -amount <= Get(v.shares, to)
  {
    var w := Transfer(v, from, to, amount).0;
    assert to in w.shares;
    TransferMovesShares(v, from, to, amount, to);
    forall k | k in w.shares && k != to ensures 0 <= w.shares[k] {
      TransferMovesShares(v, from, to, amount, k);
    }
  }

  /** Negative amounts are not rejected: a transfer of -5 to a stranger leaves him with -5 shares. */
  lemma NegativeTransferOverdraws()
    ensures var w := Transfer(NEW_VAULT, "a", "b", -5).0;
      && w.shares == map["a" := 5, "b" := -5] && !NonNegative(w.shares)
      && Withdraw(w, "a", 5, 0) == (w, Failure(ZeroShares))
  {
    var w := Transfer(NEW_VAULT, "a", "b", -5).0;
    assert w.shares["b"] == -5;
  }

  lemma RunOne(v: State, op: Op, ops: seq<Op>)
    ensures Run(v, [op] + ops) == Run(Step(v, op), ops)
  {
    assert ([op] + ops)[1..] == ops;
  }

  /**
   Who receives shares by such a transfer can withdraw more than there are. A reward then
   leaves a vault with shares and no assets, in which every deposit divides by zero.
   */
  lemma OverdrawnVaultDividesByZero(caller: string, amount: int, minOut: int)
    requires 0 < amount
    ensures
      var ops := [DepositOp("a", 10, 0), TransferOp("b", "c", -15), WithdrawOp("b", 15, 0), RewardOp(5)];
      var v := Run(NEW_VAULT, ops);
      && v.totalShares == -5 && v.totalAssets == 0
      && Deposit(v, caller, amount, minOut) == (v, Failure(DivisionByZero))
  {
    var ops := [DepositOp("a", 10, 0), TransferOp("b", "c", -15), WithdrawOp("b", 15, 0), RewardOp(5)];
    var v1 := Step(NEW_VAULT, ops[0]);
    var v2 := Step(v1, ops[1]);
    var v3 := Step(v2, ops[2]);
    assert v2.shares["b"] == 15;
    assert v3.totalShares == -5 && v3.totalAssets == -5;
    RunOne(v3, ops[3], []);
    RunOne(v2, ops[2], [ops[3]]);
    RunOne(v1, ops[1], [ops[2], ops[3]]);
    RunOne(NEW_VAULT, ops[0], [ops[1], ops[2], ops[3]]);
    assert [ops[0]] + ([ops[1]] + ([ops[2]] + ([ops[3]] + []))) == ops;
  }

  /** Assets are gone exactly when the last share is. */
  lemma WithdrawalEmptiesIff(v: State, caller: string, shares: int, minOut: int)
    requires Sound(v) && Withdraw(v, caller, shares, minOut).1.Success?
    ensures var w := Withdraw(v, caller, shares, minOut).0;
      w.totalAssets == 0 <==> w.totalShares == 0
  {
    BalanceIsAtMostTotal(v, caller);
    PayoutBounds(v, shares);
  }

  /** Nobody's balance but the given one's has moved, and that one by `delta`. */
  ghost predicate OnlyMoves(v: State, w: State, caller: string, delta: int) {
    forall k: string :: Get(w.shares, k) == Get(v.shares, k) + if k == caller then delta else 0
  }

  function AtLeastOne(minOut: int): int {
    if minOut < 1 then 1 else minOut
  }

  /**
   A deposit goes through exactly if its amount is worth the shares asked for, and one at
   least; it mints the most shares that the amount is worth, to the caller alone. While
   there are no shares, an amount is worth as many.
   */
  lemma DepositMintsWorth(v: State, caller: string, amount: int, minOut: int)
    requires Sound(v)
    ensures var (w, r) := Deposit(v, caller, amount, minOut);
      && (r.Success? <==>
            0 < amount && if v.totalShares == 0 then minOut <= amount
                          else AtLeastOne(minOut) * v.totalAssets <= amount * v.totalShares)
      && (r.Success? ==>
            && (if v.totalShares == 0 then r.value == amount
                else r.value * v.totalAssets <= amount * v.totalShares < (r.value + 1) * v.totalAssets)
            && OnlyMoves(v, w, caller, r.value)
            && w.totalShares == v.totalShares + r.value && w.totalAssets == v.totalAssets + amount)
      && (r.Failure? ==>
            && w == v
            && (r.error == InvalidAmount <==>
                  amount <= 0 || (v.totalShares != 0 && amount * v.totalShares < v.totalAssets))
            && (r.error == SlippageExceeded <==> r.error != InvalidAmount))
  {
    SumIsNonNegative(v.shares);
    if 0 < amount && v.totalShares != 0 {
      MulMonotone(0, amount, v.totalShares);
      WorthIff(amount * v.totalShares, v.totalAssets, AtLeastOne(minOut));
      WorthIff(amount * v.totalShares, v.totalAssets, 1);
    }
  }

  /** Likewise a withdrawal pays the most assets that the shares are worth. */
  lemma WithdrawalPaysWorth(v: State, caller: string, shares: int, minOut: int)
    requires Sound(v)
    ensures var (w, r) := Withdraw(v, caller, shares, minOut);
      && (r.Success? <==>
            0 < shares <= Get(v.shares, caller) && AtLeastOne(minOut) * v.totalShares <= shares * v.totalAssets)
      && (r.Success? ==>
            && r.value * v.totalShares <= shares * v.totalAssets < (r.value + 1) * v.totalShares
            && OnlyMoves(v, w, caller, -shares)
            && w.totalShares == v.totalShares - shares && w.totalAssets == v.totalAssets - r.value)
      && (r.Failure? ==>
            && w == v
            && (r.error == InsufficientBalance <==> 0 < shares && Get(v.shares, caller) < shares)
            && (r.error == InvalidAmount <==>
                  shares <= 0 || (shares <= Get(v.shares, caller) && shares * v.totalAssets < v.totalShares))
            && (r.error == SlippageExceeded <==> r.error != InsufficientBalance && r.error != InvalidAmount))
  {
    BalanceIsAtMostTotal(v, caller);
    if 0 < shares <= Get(v.shares, caller) {
      MulMonotone(0, shares, v.totalAssets);
      WorthIff(shares * v.totalAssets, v.totalShares, AtLeastOne(minOut));
      WorthIff(shares * v.totalAssets, v.totalShares, 1);
    }
  }

  /** The quotient reaches m exactly if m times the divisor fits. */
  lemma WorthIff(a: int, b: int, m: int)
    requires 0 <= a && 0 < b
    ensures m <= TruncDiv(a, b) <==> m * b <= a
    ensures TruncDiv(a, b) * b <= a < (TruncDiv(a, b) + 1) * b
  {
    QuotientBounds(a, b);
    if m * b <= a {
      QuotientIsGreatest(a, b, m);
    }
    if m <= TruncDiv(a, b) {
      MulMonotone(m, TruncDiv(a, b), b);
    }
  }

  /** A transfer goes through exactly if the sender owns the amount; to oneself it changes no balance. */
  lemma TransferMovesShares(v: State, from: string, to: string, amount: int, k: string)
    ensures var (w, r) := Transfer(v, from, to, amount);
      && (r.Success? <==> amount <= Get(v.shares, from))
      && (r.Success? ==>
            && Get(w.shares, k)
               == Get(v.shares, k) - (if k == from then amount else 0) + (if k == to then amount else 0)
            && w.totalShares == v.totalShares && w.totalAssets == v.totalAssets)
      && (r.Failure? ==> w == v)
  {
  }

  /** What holders are told that their shares are worth: the most assets that fit, if there are any shares. */
  lemma RewardsAreWorth(v: State, shares: int)
    requires Sound(v)
    ensures var r := CalculateRewards(v, shares);
      && (r.Success? <==> 0 <= shares && v.totalShares != 0)
      && (r.Success? ==> r.value * v.totalShares <= shares * v.totalAssets < (r.value + 1) * v.totalShares)
      && (r.Failure? ==> r.error == if shares < 0 then InvalidAmount else ZeroShares)
  {
    SumIsNonNegative(v.shares);
    if 0 <= shares && v.totalShares != 0 {
      MulMonotone(0, shares, v.totalAssets);
      WorthIff(shares * v.totalAssets, v.totalShares, 0);
    }
  }

  /** A distribution goes through exactly if it is positive, and raises assets and pending rewards by its amount. */
  lemma RewardsRaiseAssets(v: State, amount: int)
    ensures var (w, r) := DistributeRewards(v, amount);
      && (r.Success? <==> 0 < amount)
      && (r.Success? ==>
            && w.totalAssets == v.totalAssets + amount && w.pendingRewards == v.pendingRewards + amount
            && w.shares == v.shares && w.totalShares == v.totalShares)
      && (r.Failure? ==> w == v && r.error == InvalidAmount)
  {
  }

  // --- The books of a run ---

  function ReceiptOf(v: State, op: Op): Receipt {
    match op
    case DepositOp(c, a, m) => Deposit(v, c, a, m).1
    case WithdrawOp(c, s, m) => Withdraw(v, c, s, m).1
    case RewardOp(a) => DistributeRewards(v, a).1
    case CompoundOp => Success(0)
    case TransferOp(f, t, a) => Transfer(v, f, t, a).1
  }

  /** What an operation brings in, by its receipt: deposits and rewards, less what a withdrawal has paid. */
  function AssetsIn(op: Op, r: Receipt): int {
    if r.Failure? then 0
    else match op
      case DepositOp(_, amount, _) => amount
      case WithdrawOp(_, _, _) => -r.value
      case RewardOp(amount) => amount
      case _ => 0
  }

  /** What it brings to one holder: shares minted, shares burned, shares received and sent. */
  function SharesIn(op: Op, r: Receipt, k: string): int {
    if r.Failure? then 0
    else match op
      case DepositOp(caller, _, _) => if k == caller then r.value else 0
      case WithdrawOp(caller, shares, _) => if k == caller then -shares else 0
      case TransferOp(from, to, amount) => (if k == to then amount else 0) - (if k == from then amount else 0)
      case _ => 0
  }

  /** What it adds to all shares: transfers nothing. */
  function Minted(op: Op, r: Receipt): int {
    if r.Failure? then 0
    else match op
      case DepositOp(_, _, _) => r.value
      case WithdrawOp(_, shares, _) => -shares
      case _ => 0
  }

  function TotalAssetsIn(v: State, ops: seq<Op>): int
    decreases |ops|
  {
    if ops == [] then 0 else AssetsIn(ops[0], ReceiptOf(v, ops[0])) + TotalAssetsIn(Step(v, ops[0]), ops[1..])
  }

  function TotalSharesIn(v: State, ops: seq<Op>, k: string): int
    decreases |ops|
  {
    if ops == [] then 0 else SharesIn(ops[0], ReceiptOf(v, ops[0]), k) + TotalSharesIn(Step(v, ops[0]), ops[1..], k)
  }

  function TotalMinted(v: State, ops: seq<Op>): int
    decreases |ops|
  {
    if ops == [] then 0 else Minted(ops[0], ReceiptOf(v, ops[0])) + TotalMinted(Step(v, ops[0]), ops[1..])
  }

  lemma StepBooks(v: State, op: Op, k: string)
    ensures var w, r := Step(v, op), ReceiptOf(v, op);
      && w.totalAssets == v.totalAssets + AssetsIn(op, r)
      && w.totalShares == v.totalShares + Minted(op, r)
      && Get(w.shares, k) == Get(v.shares, k) + SharesIn(op, r, k)
  {
  }

  /**
   The books of any run are its receipts: the assets are what was there, what was paid in
   and rewarded, less what was paid out; each balance and the total likewise in shares.
   */
  lemma {:induction false} RunBooks(v: State, ops: seq<Op>, k: string)
    ensures var w := Run(v, ops);
      && w.totalAssets == v.totalAssets + TotalAssetsIn(v, ops)
      && w.totalShares == v.totalShares + TotalMinted(v, ops)
      && Get(w.shares, k) == Get(v.shares, k) + TotalSharesIn(v, ops, k)
    decreases |ops|
  {
    if ops != [] {
      StepBooks(v, ops[0], k);
      RunBooks(Step(v, ops[0]), ops[1..], k);
    }
  }

  /** The rewards handed out since the last compounding, if there was one. */
  function RewardsSinceCompound(ops: seq<Op>): (int, bool)
    decreases |ops|
  {
    if ops == [] then (0, false)
    else
      var (later, compounded) := RewardsSinceCompound(ops[1..]);
      if compounded then (later, true)
      else if ops[0].CompoundOp? then (later, true)
      else if ops[0].RewardOp? && 0 < ops[0].amount then (ops[0].amount + later, false)
      else (later, false)
  }

  /** Pending rewards are those of the accepted distributions since the last compounding. */
  lemma {:induction false} PendingIsSinceCompound(v: State, ops: seq<Op>)
    ensures var (rewards, compounded) := RewardsSinceCompound(ops);
      Run(v, ops).pendingRewards == rewards + if compounded then 0 else v.pendingRewards
    decreases |ops|
  {
    if ops != [] {
      PendingIsSinceCompound(Step(v, ops[0]), ops[1..]);
    }
  }

  // --- The price of a share ---

  /** Assets per share in `w` are not below those in `v`, written without division. */
  predicate PriceAtLeast(w: State, v: State) {
    v.totalAssets * w.totalShares <= w.totalAssets * v.totalShares
  }

  lemma StepNeverLowersPrice(v: State, op: Op)
    requires Sound(v) && 0 < v.totalShares
    ensures PriceAtLeast(Step(v, op), v)
  {
    var a, s := v.totalAssets, v.totalShares;
    match op
    case DepositOp(_, d, _) =>
      if 0 < d {
        assert 0 <= d * s;
        QuotientBounds(d * s, a);
        var m := SharesFor(v, d);
        assert a * (s + m) <= (a + d) * s;
      }
    case WithdrawOp(_, n, _) =>
      if 0 < n {
        assert 0 <= n * a;
        QuotientBounds(n * a, s);
        var p := AssetsFor(v, n);
        assert a * (s - n) <= (a - p) * s;
      }
    case RewardOp(d) =>
      if 0 < d { assert a * s <= (a + d) * s; }
    case CompoundOp =>
    case TransferOp(_, _, _) =>
  }

  /** There are outstanding shares before every step of the run. */
  ghost predicate SharesThroughout(v: State, ops: seq<Op>)
    decreases |ops|
  {
    ops != [] ==> 0 < v.totalShares && SharesThroughout(Step(v, ops[0]), ops[1..])
  }

  lemma PriceIsTransitive(u: State, v: State, w: State)
    requires Sound(u) && Sound(v) && Sound(w)
    requires 0 < v.totalShares && PriceAtLeast(v, u) && PriceAtLeast(w, v)
    ensures PriceAtLeast(w, u)
  {
    SumIsNonNegative(u.shares);
    SumIsNonNegative(w.shares);
    CrossTransitive(u.totalAssets, u.totalShares, v.totalAssets, v.totalShares, w.totalAssets, w.totalShares);
  }

  /** While shares remain outstanding no run lowers the assets behind one share. */
  lemma {:induction false} PriceNeverFalls(v: State, ops: seq<Op>)
    requires Sound(v) && 0 < v.totalShares && NoNegativeTransfer(ops) && SharesThroughout(v, ops)
    ensures PriceAtLeast(Run(v, ops), v)
    decreases |ops|
  {
    if ops != [] {
      var u := Step(v, ops[0]);
      StepKeepsSound(v, ops[0]);
      StepNeverLowersPrice(v, ops[0]);
      if ops[1..] != [] {
        PriceNeverFalls(u, ops[1..]);
        RunKeepsSound(u, ops[1..]);
        PriceIsTransitive(v, u, Run(u, ops[1..]));
      }
    }
  }

  // --- Splitting ---

  function Total(xs: seq<int>): int {
    if xs == [] then 0 else xs[0] + Total(xs[1..])
  }

  function Withdrawals(caller: string, chunks: seq<int>): (ops: seq<Op>)
    ensures |ops| == |chunks| && forall i :: 0 <= i < |ops| ==> ops[i] == WithdrawOp(caller, chunks[i], 0)
  {
    seq(|chunks|, i requires 0 <= i < |chunks| => WithdrawOp(caller, chunks[i], 0))
  }

  function Deposits(caller: string, chunks: seq<int>): (ops: seq<Op>)
    ensures |ops| == |chunks| && forall i :: 0 <= i < |ops| ==> ops[i] == DepositOp(caller, chunks[i], 0)
  {
    seq(|chunks|, i requires 0 <= i < |chunks| => DepositOp(caller, chunks[i], 0))
  }

  /** Every step of the run succeeds. */
  ghost predicate AllSucceed(v: State, ops: seq<Op>)
    decreases |ops|
  {
    ops != [] ==>
      && (ops[0].DepositOp? ==> Deposit(v, ops[0].caller, ops[0].amount, ops[0].minOut).1.Success?)
      && (ops[0].WithdrawOp? ==> Withdraw(v, ops[0].caller, ops[0].shares, ops[0].minOut).1.Success?)
      && AllSucceed(Step(v, ops[0]), ops[1..])
  }

  lemma {:induction false} WithdrawalsTakeShares(v: State, caller: string, chunks: seq<int>)
    requires Sound(v) && AllSucceed(v, Withdrawals(caller, chunks))
    ensures SharesThroughout(v, Withdrawals(caller, chunks))
    ensures Run(v, Withdrawals(caller, chunks)).totalShares == v.totalShares - Total(chunks)
    decreases |chunks|
  {
    if chunks != [] {
      var ops := Withdrawals(caller, chunks);
      assert ops[1..] == Withdrawals(caller, chunks[1..]);
      BalanceIsAtMostTotal(v, caller);
      StepKeepsSound(v, ops[0]);
      WithdrawalsTakeShares(Step(v, ops[0]), caller, chunks[1..]);
    }
  }

  lemma {:induction false} DepositsAddAssets(v: State, caller: string, chunks: seq<int>)
    requires Sound(v) && 0 < v.totalShares && AllSucceed(v, Deposits(caller, chunks))
    ensures SharesThroughout(v, Deposits(caller, chunks))
    ensures Run(v, Deposits(caller, chunks)).totalAssets == v.totalAssets + Total(chunks)
    decreases |chunks|
  {
    if chunks != [] {
      var ops := Deposits(caller, chunks);
      assert ops[1..] == Deposits(caller, chunks[1..]);
      StepKeepsSound(v, ops[0]);
      DepositsAddAssets(Step(v, ops[0]), caller, chunks[1..]);
    }
  }

  /** If the price has not fallen, giving up n of s shares has brought at most the quotient for n. */
  lemma PaidFromPrice(a: int, s: int, left: int, n: int)
    requires 0 <= a && 0 < s && 0 <= n && a * (s - n) <= left * s
    ensures a - left <= TruncDiv(n * a, s)
  {
    MulMonotone(0, n, a);
    assert (a - left) * s <= n * a;
    QuotientIsGreatest(n * a, s, a - left);
  }

  /** If the price has not fallen, paying in n assets has brought at most the quotient for n. */
  lemma MintedFromPrice(a: int, s: int, now: int, n: int)
    requires 0 < a && 0 < s && 0 <= n && a * now <= (a + n) * s
    ensures now - s <= TruncDiv(n * s, a)
  {
    MulMonotone(0, n, s);
    assert (now - s) * a <= n * s;
    QuotientIsGreatest(n * s, a, now - s);
  }

  /** Withdrawing in successive chunks never pays more than one withdrawal of the same shares. */
  lemma SplitWithdrawalNeverPaysMore(v: State, caller: string, chunks: seq<int>)
    requires Sound(v) && 0 < v.totalShares && AllSucceed(v, Withdrawals(caller, chunks))
    ensures v.totalAssets - Run(v, Withdrawals(caller, chunks)).totalAssets <= AssetsFor(v, Total(chunks))
  {
    var ops := Withdrawals(caller, chunks);
    var w, n := Run(v, ops), Total(chunks);
    WithdrawalsTakeShares(v, caller, chunks);
    PriceNeverFalls(v, ops);
    TotalOfWithdrawals(v, caller, chunks);
    PaidFromPrice(v.totalAssets, v.totalShares, w.totalAssets, n);
  }

  lemma {:induction false} TotalOfWithdrawals(v: State, caller: string, chunks: seq<int>)
    requires AllSucceed(v, Withdrawals(caller, chunks))
    ensures 0 <= Total(chunks)
    decreases |chunks|
  {
    if chunks != [] {
      var ops := Withdrawals(caller, chunks);
      assert ops[1..] == Withdrawals(caller, chunks[1..]);
      TotalOfWithdrawals(Step(v, ops[0]), caller, chunks[1..]);
    }
  }

  lemma DepositsNeverMintMore(v: State, caller: string, chunks: seq<int>)
    requires Sound(v) && 0 < v.totalShares && AllSucceed(v, Deposits(caller, chunks))
    ensures Run(v, Deposits(caller, chunks)).totalShares - v.totalShares <= SharesFor(v, Total(chunks))
  {
    var ops := Deposits(caller, chunks);
    var w, n := Run(v, ops), Total(chunks);
    DepositsAddAssets(v, caller, chunks);
    PriceNeverFalls(v, ops);
    TotalOfDeposits(v, caller, chunks);
    MintedFromPrice(v.totalAssets, v.totalShares, w.totalShares, n);
  }

  /** A share that is worth an asset at least is not minted for less. */
  lemma ExpensiveShares(n: int, s: int, a: int)
    requires 0 <= n && 0 <= s <= a && 0 < a
    ensures TruncDiv(n * s, a) <= n
  {
    MulMonotone(0, n, s);
    MulMonotone(s, a, n);
    QuotientBounds(n * s, a);
    MulCancel(TruncDiv(n * s, a), n, a);
  }

  /** The first chunk into a vault without shares mints its amount; later ones mint no more than theirs. */
  lemma FirstDepositsMintAtMost(v: State, caller: string, chunks: seq<int>)
    requires Sound(v) && v.totalShares == 0 && AllSucceed(v, Deposits(caller, chunks))
    ensures Run(v, Deposits(caller, chunks)).totalShares <= Total(chunks)
  {
    if chunks != [] {
      var ops, rest := Deposits(caller, chunks), chunks[1..];
      assert ops[1..] == Deposits(caller, rest);
      var u := Step(v, ops[0]);
      StepKeepsSound(v, ops[0]);
      DepositsNeverMintMore(u, caller, rest);
      TotalOfDeposits(u, caller, rest);
      ExpensiveShares(Total(rest), u.totalShares, u.totalAssets);
    }
  }

  /** Depositing in successive chunks never mints more shares than one deposit of the same amount. */
  lemma SplitDepositNeverMintsMore(v: State, caller: string, chunks: seq<int>)
    requires Sound(v) && AllSucceed(v, Deposits(caller, chunks))
    ensures Run(v, Deposits(caller, chunks)).totalShares - v.totalShares
            <= if 0 < v.totalShares then SharesFor(v, Total(chunks)) else Total(chunks)
  {
    SumIsNonNegative(v.shares);
    if v.totalShares == 0 {
      FirstDepositsMintAtMost(v, caller, chunks);
    } else {
      DepositsNeverMintMore(v, caller, chunks);
    }
  }

  lemma {:induction false} TotalOfDeposits(v: State, caller: string, chunks: seq<int>)
    requires AllSucceed(v, Deposits(caller, chunks))
    ensures 0 <= Total(chunks)
    decreases |chunks|
  {
    if chunks != [] {
      var ops := Deposits(caller, chunks);
      assert ops[1..] == Deposits(caller, chunks[1..]);
      TotalOfDeposits(Step(v, ops[0]), caller, chunks[1..]);
    }
  }

  // --- Solvency ---

  /** What each holder could redeem on his own. */
  function Claims(v: State, m: map<string, int>): map<string, int>
    requires v.totalShares != 0
  {
    map k | k in m :: AssetsFor(v, m[k])
  }

  lemma ClaimsSplit(v: State, m: map<string, int>, k: string)
    requires v.totalShares != 0 && k in m
    ensures Sum(Claims(v, m)) == AssetsFor(v, m[k]) + Sum(Claims(v, m - {k}))
  {
    SumSplit(Claims(v, m), k);
    assert Claims(v, m) - {k} == Claims(v, m - {k});
  }

  /** `owned` shares are worth at least `claimed` assets. */
  predicate Covered(v: State, claimed: int, owned: int) {
    claimed * v.totalShares <= owned * v.totalAssets
  }

  lemma {:induction false} ClaimsAreCovered(v: State, m: map<string, int>)
    requires 0 <= v.totalAssets && 0 < v.totalShares && NonNegative(m)
    ensures Covered(v, Sum(Claims(v, m)), Sum(m))
    decreases |m|
  {
    if m == map[] {
      assert Claims(v, m) == map[];
    } else {
      var k :| k in m;
      ClaimsAreCovered(v, m - {k});
      ClaimsCoveredStep(v, m, k, Sum(Claims(v, m - {k})), Sum(m - {k}));
    }
  }

  lemma ClaimsCoveredStep(v: State, m: map<string, int>, k: string, claimed: int, owned: int)
    requires 0 <= v.totalAssets && 0 < v.totalShares && k in m && 0 <= m[k]
    requires claimed == Sum(Claims(v, m - {k})) && owned == Sum(m - {k}) && Covered(v, claimed, owned)
    ensures Covered(v, Sum(Claims(v, m)), Sum(m))
  {
    SumSplit(m, k);
    ClaimsSplit(v, m, k);
    ClaimsAddUp(v, m[k], claimed, owned);
    CoveredAlike(v, Sum(Claims(v, m)), Sum(m), AssetsFor(v, m[k]) + claimed, m[k] + owned);
  }

  lemma CoveredAlike(v: State, claimed: int, owned: int, claimed': int, owned': int)
    requires Covered(v, claimed', owned') && claimed == claimed' && owned == owned'
    ensures Covered(v, claimed, owned)
  {
  }

  lemma ClaimsAddUp(v: State, shares: int, claimed: int, owned: int)
    requires 0 <= v.totalAssets && 0 < v.totalShares && 0 <= shares
    requires Covered(v, claimed, owned)
    ensures Covered(v, AssetsFor(v, shares) + claimed, shares + owned)
  {
    MulMonotone(0, shares, v.totalAssets);
    QuotientBounds(shares * v.totalAssets, v.totalShares);
  }

  /** All holders together can never claim more than the vault holds. */
  lemma VaultIsSolvent(v: State)
    requires Sound(v) && 0 < v.totalShares
    ensures forall k :: k in v.shares ==> CalculateRewards(v, v.shares[k]) == Success(Claims(v, v.shares)[k])
    ensures Sum(Claims(v, v.shares)) <= v.totalAssets
  {
    ClaimsAreCovered(v, v.shares);
    MulCancel(Sum(Claims(v, v.shares)), v.totalAssets, v.totalShares);
  }

  /**
   Depositing and at once withdrawing the minted shares returns more than was deposited
   exactly when the vault held assets with no shares.
   */
  lemma RoundTripGainsIff(v: State, caller: string, amount: int)
    requires Sound(v) && Deposit(v, caller, amount, 0).1.Success?
    ensures var (u, minted) := Deposit(v, caller, amount, 0);
      var back := Withdraw(u, caller, minted.value, 0).1;
      back.Success? && back.value > amount <==> v.totalShares == 0 && 0 < v.totalAssets
  {
    SumIsNonNegative(v.shares);
    BalanceIsAtMostTotal(v, caller);
    var u, m := Deposit(v, caller, amount, 0).0, Deposit(v, caller, amount, 0).1.value;
    StepKeepsSound(v, DepositOp(caller, amount, 0));
    if v.totalShares == 0 {
      PayoutBounds(u, m);
    } else {
      MulMonotone(0, amount, v.totalShares);
      QuotientBounds(amount * v.totalShares, v.totalAssets);
      RoundTripPays(v.totalAssets, v.totalShares, amount, m);
    }
  }

  /** Rewards paid into an empty vault go to the next depositor: who pays in 5 after a reward of 10 can take out 15. */
  lemma RewardedEmptyVaultPaysDepositor()
    ensures var v := Run(NEW_VAULT, [RewardOp(10)]);
      var (u, minted) := Deposit(v, "a", 5, 0);
      minted == Success(5) && Withdraw(u, "a", 5, 0).1 == Success(15)
  {
    var ops := [RewardOp(10)];
    assert ops[1..] == [];
    assert Run(NEW_VAULT, ops) == Step(NEW_VAULT, ops[0]);
  }

  lemma RoundTripPays(a: int, s: int, amount: int, minted: int)
    requires 0 < a && 0 < s && 0 < amount && 0 < minted && minted * a <= amount * s
    ensures TruncDiv(minted * (a + amount), s + minted) <= amount
  {
    var p := TruncDiv(minted * (a + amount), s + minted);
    MulMonotone(0, minted, a + amount);
    QuotientBounds(minted * (a + amount), s + minted);
    assert minted * (a + amount) <= amount * (s + minted);
    MulCancel(p, amount, s + minted);
  }
}
