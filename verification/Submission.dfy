/**
 The retry and fee-bump loop of `submitTransaction` (sdk/src/utils.ts) and the
 client's `withRetry` around it (sdk/src/client.ts). Replies of the RPC are an
 arbitrary script; error texts are classified by the environment. The methods
 are the source's loops; each computes a function, and what the source promises
 is proved about these functions.
 */
module Submission {
  import opened Wrappers
  import opened Arithmetic

  /** What a message says, in the order in which the code looks. */
  datatype Text = ContractText(decodes: bool) | SequenceText | FeeText | PlainText

  datatype Error =
    | ContractError
    | Timeout
    | SignerRequired
    | SimulationError(message: Text)
    | Other(message: Text)

  function TextOf(e: Error): Text {
    if e.SimulationError? || e.Other? then e.message else PlainText
  }

  /** What a call of the RPC can throw; only the polling loop raises a timeout. */
  type RpcError = e: Error | !e.Timeout? witness ContractError

  datatype SendReply = SendThrows(error: RpcError) | Rejected(text: Text, message: Text) | Accepted

  datatype Status = NotFound | Failed | Succeeded

  datatype GetReply = GetThrows(error: RpcError) | Found(status: Status, decodes: bool, message: Text)

  datatype BuildReply = BuildThrows(error: RpcError) | Built

  /** The answer to the n-th call made of the environment, whichever kind that is. */
  datatype Env = Env(parses: nat -> bool, sends: nat -> SendReply, gets: nat -> GetReply, builds: nat -> BuildReply)

  /** The signed transaction: the caller's, or one rebuilt with a fee. */
  datatype Xdr = Original | Rebuilt(fee: int)

  /** What happens, in order: the calls with their replies, raised fees, and what the catch block catches. */
  datatype Entry =
    | Sent(xdr: Xdr, sendReply: SendReply)
    | Got(getReply: GetReply)
    | Build(fee: int, buildReply: BuildReply)
    | Bumped(fee: int)
    | Thrown(error: Error)

  datatype Outcome = Returned(status: Status) | Raised(error: Error)

  datatype Options = Options(maxAttempts: int, maxFeeCap: int, canRebuild: bool)

  const MAX_POLLS := 30

  predicate Terminal(e: Error) {
    e.ContractError? || e.Timeout?
  }

  /** The error that a rejected or failed transaction raises. */
  function Decoded(decodes: bool, message: Text): Error {
    if decodes then ContractError else Other(message)
  }

  function Bump(fee: int, cap: int): int {
    if fee * 2 < cap then fee * 2 else cap
  }

  predicate Missed(r: GetReply) {
    r.Found? && r.status.NotFound?
  }

  /** The mutable locals of the loop, the log, and how many calls have been made. */
  datatype Locals = Locals(xdr: Xdr, fee: int, log: seq<Entry>, clock: nat)

  datatype Step = Return(status: Status) | Continue | Throw(error: Error)

  // --- What the stretches of the loop do ---

  function Note(l: Locals, x: Entry): Locals {
    l.(log := l.log + [x])
  }

  /** One call of the environment. */
  function Call(l: Locals, x: Entry): Locals {
    Locals(l.xdr, l.fee, l.log + [x], l.clock + 1)
  }

  function SendOnce(env: Env, l: Locals): Locals {
    Call(l, Sent(l.xdr, env.sends(l.clock)))
  }

  /** The clock after the transaction has been sent: a first try that throws is followed by a second. */
  function AnswerClock(env: Env, t: nat): nat {
    if env.parses(t) && env.sends(t).SendThrows? then t + 2 else t + 1
  }

  function AfterSend(env: Env, l: Locals): (Locals, SendReply) {
    var u := AnswerClock(env, l.clock);
    (if u == l.clock + 2 then SendOnce(env, SendOnce(env, l)) else SendOnce(env, l), env.sends(u - 1))
  }

  function AfterPolls(env: Env, l: Locals, left: nat): (Locals, GetReply)
    requires 0 < left
    decreases left
  {
    var reply := env.gets(l.clock);
    var m := Call(l, Got(reply));
    if Missed(reply) && 1 < left then AfterPolls(env, m, left - 1) else (m, reply)
  }

  function Settle(r: GetReply): Step {
    match r
    case GetThrows(e) => Throw(e)
    case Found(NotFound, _, _) => Throw(Timeout)
    case Found(Failed, decodes, message) => Throw(Decoded(decodes, message))
    case Found(Succeeded, _, _) => Return(Succeeded)
  }

  function AfterRebuild(env: Env, l: Locals): (Locals, Step) {
    var reply := env.builds(l.clock);
    var m := Call(l, Build(l.fee, reply));
    if reply.Built? then (m.(xdr := Rebuilt(l.fee)), Continue) else (m, Throw(reply.error))
  }

  /** A fee can be raised that is positive and below the cap. */
  predicate CanBump(l: Locals, o: Options, mayRetry: bool) {
    mayRetry && o.canRebuild && 0 < l.fee < o.maxFeeCap
  }

  function AfterFeeError(env: Env, l: Locals, o: Options, mayRetry: bool, e: Error): (Locals, Step) {
    if CanBump(l, o, mayRetry) then
      var fee := Bump(l.fee, o.maxFeeCap);
      AfterRebuild(env, Note(l, Bumped(fee)).(fee := fee))
    else (l, Throw(e))
  }

  function AfterSequenceError(env: Env, l: Locals, o: Options, mayRetry: bool, e: Error): (Locals, Step) {
    if mayRetry && o.canRebuild then AfterRebuild(env, l) else (l, Throw(e))
  }

  /** The try block of one attempt. */
  function AfterTry(env: Env, l: Locals, o: Options, mayRetry: bool): (Locals, Step) {
    var (m, reply) := AfterSend(env, l);
    AfterReply(env, m, reply, o, mayRetry)
  }

  /** What the reply to the last send leads to. */
  function AfterReply(env: Env, m: Locals, reply: SendReply, o: Options, mayRetry: bool): (Locals, Step) {
    match reply
    case SendThrows(e) => (m, Throw(e))
    case Rejected(text, message) => AfterRejection(env, m, text, message, o, mayRetry)
    case Accepted =>
      var (n, found) := AfterPolls(env, m, MAX_POLLS);
      (n, Settle(found))
  }

  function AfterRejection(env: Env, m: Locals, text: Text, message: Text, o: Options, mayRetry: bool): (Locals, Step) {
    match text
    case ContractText(decodes) => (m, Throw(Decoded(decodes, message)))
    case SequenceText => AfterSequenceError(env, m, o, mayRetry, Other(message))
    case FeeText => AfterFeeError(env, m, o, mayRetry, Other(message))
    case PlainText => (m, Throw(Other(message)))
  }

  /** The catch block: a plain error does nothing, and the next attempt starts. */
  function AfterCatch(env: Env, l: Locals, o: Options, mayRetry: bool, e: Error): (Locals, Step) {
    if Terminal(e) then (l, Throw(e))
    else match TextOf(e)
      case ContractText(decodes) => (l, Throw(if decodes then ContractError else e))
      case SequenceText => AfterSequenceError(env, l, o, mayRetry, e)
      case FeeText => AfterFeeError(env, l, o, mayRetry, e)
      case PlainText => (l, Continue)
  }

  /** One turn of the loop, with the error, if any, that is kept for the end. */
  function AfterAttempt(env: Env, l: Locals, o: Options, mayRetry: bool): (Locals, Step, Option<Error>) {
    var (m, step) := AfterTry(env, l, o, mayRetry);
    if !step.Throw? then (m, step, None)
    else
      var (n, next) := AfterCatch(env, Note(m, Thrown(step.error)), o, mayRetry, step.error);
      (n, next, if next.Continue? && TextOf(step.error).PlainText? then Some(step.error) else None)
  }

  /** What a submission comes to: its outcome, its log and its attempts. */
  datatype Record = Record(outcome: Outcome, log: seq<Entry>, attempts: nat)

  /** The loop's state at the start of a turn. */
  datatype Turn = Turn(l: Locals, attempts: nat, lastError: Option<Error>)

  function Submitted(env: Env, o: Options, t: Turn): Record
    decreases o.maxAttempts - t.attempts
  {
    if t.attempts >= o.maxAttempts then
      Record(Raised(if t.lastError.Some? then t.lastError.value else Other(PlainText)), t.l.log, t.attempts)
    else
      var (m, step, kept) := AfterAttempt(env, t.l, o, t.attempts + 1 < o.maxAttempts);
      match step
      case Return(status) => Record(Returned(status), m.log, t.attempts + 1)
      case Throw(error) => Record(Raised(error), m.log, t.attempts + 1)
      case Continue => Submitted(env, o, Turn(m, t.attempts + 1, if kept.Some? then kept else t.lastError))
  }

  function FirstFee(parsedFee: Option<nat>): nat {
    if parsedFee.Some? then parsedFee.value else 100
  }

  function FirstTurn(parsedFee: Option<nat>): Turn {
    Turn(Locals(Original, FirstFee(parsedFee), [], 0), 0, None)
  }

  function Submit(env: Env, o: Options, parsedFee: Option<nat>): Record {
    Submitted(env, o, FirstTurn(parsedFee))
  }

  // --- The loop itself ---

  /** Sends the transaction, a second time if building or sending it throws. */
  method Send(env: Env, l: Locals) returns (m: Locals, reply: SendReply)
    ensures (m, reply) == AfterSend(env, l)
  {
    m := l;
    if env.parses(m.clock) {
      reply := env.sends(m.clock);
      m := Call(m, Sent(m.xdr, reply));
      if !reply.SendThrows? {
        return;
      }
    }
    reply := env.sends(m.clock);
    m := Call(m, Sent(m.xdr, reply));
  }

  /** Polls until a reply is not NOT_FOUND or the call throws, at most 30 times. */
  method PollUntilFound(env: Env, l: Locals) returns (m: Locals, reply: GetReply)
    ensures (m, reply) == AfterPolls(env, l, MAX_POLLS)
  {
    m := l;
    var polls := 0;
    reply := Found(NotFound, false, PlainText);
    while polls < MAX_POLLS && Missed(reply)
      invariant polls <= MAX_POLLS
      invariant if Missed(reply) && polls < MAX_POLLS then
                  AfterPolls(env, l, MAX_POLLS) == AfterPolls(env, m, MAX_POLLS - polls)
                else
                  AfterPolls(env, l, MAX_POLLS) == (m, reply)
    {
      reply := env.gets(m.clock);
      m := Call(m, Got(reply));
      polls := polls + 1;
    }
  }

  /** Rebuilds the transaction with the current fee. */
  method Rebuild(env: Env, l: Locals) returns (m: Locals, step: Step)
    ensures (m, step) == AfterRebuild(env, l)
  {
    m := Call(l, Build(l.fee, env.builds(l.clock)));
    match env.builds(l.clock) {
      case Built =>
        m := m.(xdr := Rebuilt(l.fee));
        step := Continue;
      case BuildThrows(e) =>
        step := Throw(e);
    }
  }

  /** Doubles the fee up to the cap and rebuilds if that is allowed; otherwise throws `error`. */
  method BumpAndRebuild(env: Env, l: Locals, o: Options, mayRetry: bool, error: Error)
    returns (m: Locals, step: Step)
    requires 0 <= l.fee
    ensures (m, step) == AfterFeeError(env, l, o, mayRetry, error)
  {
    if mayRetry && l.fee < o.maxFeeCap && o.canRebuild {
      var bumped := if l.fee * 2 < o.maxFeeCap then l.fee * 2 else o.maxFeeCap;
      if bumped > l.fee {
        m, step := Rebuild(env, Note(l, Bumped(bumped)).(fee := bumped));
        return;
      }
    }
    return l, Throw(error);
  }

  /** The try block of one attempt. */
  method Try(env: Env, l: Locals, o: Options, mayRetry: bool) returns (m: Locals, step: Step)
    requires 0 <= l.fee
    ensures (m, step) == AfterTry(env, l, o, mayRetry)
  {
    var reply;
    m, reply := Send(env, l);
    match reply {
      case SendThrows(e) =>
        step := Throw(e);
      case Rejected(ContractText(decodes), message) =>
        step := Throw(Decoded(decodes, message));
      case Rejected(SequenceText, message) =>
        if mayRetry && o.canRebuild {
          m, step := Rebuild(env, m);
        } else {
          step := Throw(Other(message));
        }
      case Rejected(FeeText, message) =>
        m, step := BumpAndRebuild(env, m, o, mayRetry, Other(message));
      case Rejected(PlainText, message) =>
        step := Throw(Other(message));
      case Accepted =>
        var found;
        m, found := PollUntilFound(env, m);
        step := Settle(found);
    }
  }

  /** The catch block. */
  method Catch(env: Env, l: Locals, o: Options, mayRetry: bool, error: Error) returns (m: Locals, step: Step)
    requires 0 <= l.fee
    ensures (m, step) == AfterCatch(env, l, o, mayRetry, error)
  {
    m, step := l, Continue;
    if Terminal(error) {
      return l, Throw(error);
    }
    match TextOf(error) {
      case ContractText(decodes) =>
        step := Throw(if decodes then ContractError else error);
      case SequenceText =>
        if mayRetry && o.canRebuild {
          m, step := Rebuild(env, l);
        } else {
          step := Throw(error);
        }
      case FeeText =>
        m, step := BumpAndRebuild(env, l, o, mayRetry, error);
      case PlainText =>
    }
  }

  /** One turn of the loop, with the error, if any, that is kept for the end. */
  method Attempt(env: Env, l: Locals, o: Options, mayRetry: bool)
    returns (m: Locals, step: Step, kept: Option<Error>)
    requires 0 <= l.fee
    ensures (m, step, kept) == AfterAttempt(env, l, o, mayRetry)
  {
    FeeStaysNonNegative(env, l, o, mayRetry);
    m, step := Try(env, l, o, mayRetry);
    kept := None;
    if step.Throw? {
      var error := step.error;
      m, step := Catch(env, Note(m, Thrown(error)), o, mayRetry, error);
      if step.Continue? && TextOf(error).PlainText? {
        kept := Some(error);
      }
    }
  }

  /** Submits a transaction whose fee is `parsedFee`, or 100 if it cannot be read. */
  method SubmitTransaction(env: Env, o: Options, parsedFee: Option<nat>) returns (r: Record)
    ensures r == Submit(env, o, parsedFee)
  {
    var l := Locals(Original, FirstFee(parsedFee), [], 0);
    var lastError: Option<Error> := None;
    var attempts := 0;
    while attempts < o.maxAttempts
      invariant 0 <= l.fee
      invariant Submitted(env, o, Turn(l, attempts, lastError)) == Submit(env, o, parsedFee)
    {
      FeeStaysNonNegative(env, l, o, attempts + 1 < o.maxAttempts);
      ghost var before := Turn(l, attempts, lastError);
      attempts := attempts + 1;
      var step, kept;
      l, step, kept := Attempt(env, l, o, attempts < o.maxAttempts);
      if kept.Some? {
        lastError := kept;
      }
      match step {
        case Return(status) => return Record(Returned(status), l.log, attempts);
        case Throw(error) => return Record(Raised(error), l.log, attempts);
        case Continue =>
          assert Submitted(env, o, before) == Submitted(env, o, Turn(l, attempts, lastError));
      }
    }
    r := Record(Raised(if lastError.Some? then lastError.value else Other(PlainText)), l.log, attempts);
  }

  /** Neither block of an attempt makes the fee negative. */
  lemma FeeStaysNonNegative(env: Env, l: Locals, o: Options, mayRetry: bool)
    requires 0 <= l.fee
    ensures 0 <= AfterTry(env, l, o, mayRetry).0.fee && 0 <= AfterAttempt(env, l, o, mayRetry).0.fee
  {
    if AfterSend(env, l).1.Accepted? {
      PollsKeepFee(env, AfterSend(env, l).0, MAX_POLLS);
    }
  }

  lemma {:induction false} PollsKeepFee(env: Env, l: Locals, left: nat)
    requires 0 < left
    ensures AfterPolls(env, l, left).0.fee == l.fee
    decreases left
  {
    if Missed(env.gets(l.clock)) && 1 < left {
      PollsKeepFee(env, Call(l, Got(env.gets(l.clock))), left - 1);
    }
  }

  // --- What the log of a submission says ---

  predicate IsSent(x: Entry) { x.Sent? }

  predicate IsPoll(x: Entry) { x.Got? }

  predicate IsBump(x: Entry) { x.Bumped? }

  predicate IsCall(x: Entry) { x.Sent? || x.Got? || x.Build? }

  predicate IsSuccess(x: Entry) {
    x.Got? && x.getReply.Found? && x.getReply.status.Succeeded?
  }

  function Count(log: seq<Entry>, p: Entry -> bool): nat {
    if log == [] then 0 else Count(log[..|log| - 1], p) + if p(log[|log| - 1]) then 1 else 0
  }

  lemma CountAppends(log: seq<Entry>, x: Entry, p: Entry -> bool)
    ensures Count(log + [x], p) == Count(log, p) + if p(x) then 1 else 0
  {
    assert (log + [x])[..|log|] == log;
  }

  /** If `x` is the n-th call, its reply is the environment's answer to the n-th call. */
  predicate Answers(x: Entry, env: Env, n: nat) {
    match x
    case Sent(_, reply) => reply == env.sends(n)
    case Got(reply) => reply == env.gets(n)
    case Build(_, reply) => reply == env.builds(n)
    case _ => true
  }

  /** The log is the record of the calls made of the environment. */
  predicate Records(log: seq<Entry>, env: Env) {
    log != [] ==>
      var before := log[..|log| - 1];
      Records(before, env) && Answers(log[|log| - 1], env, Count(before, IsCall))
  }

  /** Errors after which nothing is tried any more. */
  predicate Stops(e: Error) {
    Terminal(e) || TextOf(e).ContractText?
  }

  /** The entries that end a submission: a success found, or an error that stops. */
  predicate Ends(x: Entry) {
    IsSuccess(x) || (x.Thrown? && Stops(x.error))
  }

  ghost predicate Running(log: seq<Entry>) {
    forall i :: 0 <= i < |log| ==> !Ends(log[i])
  }

  /** Nothing at all happens after an entry that ends the submission. */
  ghost predicate OnlyLastEnds(log: seq<Entry>) {
    forall i :: 0 <= i < |log| - 1 ==> !Ends(log[i])
  }

  predicate EndsIn(log: seq<Entry>, x: Entry) {
    log != [] && log[|log| - 1] == x
  }

  predicate EndsInSuccess(log: seq<Entry>) {
    log != [] && IsSuccess(log[|log| - 1])
  }

  /** The last k entries are polls that found nothing. */
  ghost predicate EndsInMisses(log: seq<Entry>, k: nat) {
    k <= |log| && forall i :: |log| - k <= i < |log| ==> log[i].Got? && Missed(log[i].getReply)
  }

  /** The last entries are a full round of polls that found nothing, and the timeout. */
  ghost predicate TimedOut(log: seq<Entry>) {
    EndsIn(log, Thrown(Timeout)) && EndsInMisses(log[..|log| - 1], MAX_POLLS)
  }

  // --- Fees ---

  function Pow2(n: nat): nat {
    if n == 0 then 1 else 2 * Pow2(n - 1)
  }

  /** The fee after j bumps from f0. */
  function FeeAfter(f0: int, cap: int, j: nat): int {
    if j == 0 then f0 else Bump(FeeAfter(f0, cap, j - 1), cap)
  }

  /** The fee after some number of bumps, n at most. */
  predicate Reached(fee: int, f0: int, cap: int, n: nat) {
    fee == FeeAfter(f0, cap, n) || (0 < n && Reached(fee, f0, cap, n - 1))
  }

  function Min(a: int, b: int): int {
    if a < b then a else b
  }

  /** j bumps from below the cap double the fee j times, cut off at the cap. */
  lemma {:induction false} FeeDoublesUpToCap(f0: int, cap: int, j: nat)
    requires 0 <= f0 < cap
    ensures FeeAfter(f0, cap, j) == Min(f0 * Pow2(j), cap)
  {
    if j > 0 {
      FeeDoublesUpToCap(f0, cap, j - 1);
      assert f0 * Pow2(j) == 2 * (f0 * Pow2(j - 1));
    }
  }

  /**
   Every bump is the next doubling, every rebuilding is with the fee of the latest bump,
   and every rebuilt transaction that is sent carries a fee reached so far.
   */
  predicate FeesFollow(log: seq<Entry>, f0: int, cap: int) {
    log != [] ==>
      var before, x := log[..|log| - 1], log[|log| - 1];
      var bumps := Count(before, IsBump);
      && FeesFollow(before, f0, cap)
      && (x.Bumped? ==> 0 < f0 < cap && x.fee == FeeAfter(f0, cap, bumps + 1))
      && (x.Build? ==> x.fee == FeeAfter(f0, cap, bumps))
      && (x.Sent? && x.xdr.Rebuilt? ==> Reached(x.xdr.fee, f0, cap, bumps))
  }

  predicate FeeLaw(xdr: Xdr, fee: int, log: seq<Entry>, f0: int, cap: int) {
    && fee == FeeAfter(f0, cap, Count(log, IsBump))
    && (xdr.Rebuilt? ==> Reached(xdr.fee, f0, cap, Count(log, IsBump)))
    && FeesFollow(log, f0, cap)
  }

  lemma {:induction false} FeeStartsBelowCap(f0: int, cap: int, j: nat)
    requires 0 <= f0 && 0 < FeeAfter(f0, cap, j) < cap
    ensures 0 < f0 < cap
  {
    if j > 0 {
      FeeStartsBelowCap(f0, cap, j - 1);
    }
  }

  lemma FeeLawGoesOn(xdr: Xdr, fee: int, log: seq<Entry>, x: Entry, f0: int, cap: int)
    requires FeeLaw(xdr, fee, log, f0, cap) && !x.Bumped?
    requires (x.Sent? ==> x.xdr == xdr) && (x.Build? ==> x.fee == fee)
    ensures FeeLaw(xdr, fee, log + [x], f0, cap)
  {
    CountAppends(log, x, IsBump);
    assert (log + [x])[..|log|] == log;
  }

  lemma FeeLawBumps(xdr: Xdr, fee: int, log: seq<Entry>, f0: int, cap: int)
    requires FeeLaw(xdr, fee, log, f0, cap) && 0 <= f0 && 0 < fee < cap
    ensures FeeLaw(xdr, Bump(fee, cap), log + [Bumped(Bump(fee, cap))], f0, cap)
  {
    var x := Bumped(Bump(fee, cap));
    CountAppends(log, x, IsBump);
    FeeStartsBelowCap(f0, cap, Count(log, IsBump));
    assert (log + [x])[..|log|] == log;
  }

  // --- What every stretch of the loop keeps ---

  /** The log is the record of the calls so far, and the fee law holds. */
  predicate Good(env: Env, l: Locals, f0: int, cap: int) {
    && l.clock == Count(l.log, IsCall) && Records(l.log, env)
    && 0 <= l.fee && FeeLaw(l.xdr, l.fee, l.log, f0, cap)
  }

  lemma RecordsGoOn(log: seq<Entry>, x: Entry, env: Env)
    requires Records(log, env) && Answers(x, env, Count(log, IsCall))
    ensures Records(log + [x], env)
  {
    assert (log + [x])[..|log|] == log;
  }

  lemma CallKeepsGood(env: Env, l: Locals, x: Entry, f0: int, cap: int)
    requires Good(env, l, f0, cap) && IsCall(x) && Answers(x, env, l.clock)
    requires (x.Sent? ==> x.xdr == l.xdr) && (x.Build? ==> x.fee == l.fee)
    ensures Good(env, Call(l, x), f0, cap)
  {
    CountAppends(l.log, x, IsCall);
    RecordsGoOn(l.log, x, env);
    FeeLawGoesOn(l.xdr, l.fee, l.log, x, f0, cap);
  }

  lemma ThrowKeepsGood(env: Env, l: Locals, e: Error, f0: int, cap: int)
    requires Good(env, l, f0, cap)
    ensures Good(env, Note(l, Thrown(e)), f0, cap)
  {
    CountAppends(l.log, Thrown(e), IsCall);
    RecordsGoOn(l.log, Thrown(e), env);
    FeeLawGoesOn(l.xdr, l.fee, l.log, Thrown(e), f0, cap);
  }

  lemma BumpKeepsGood(env: Env, l: Locals, f0: int, cap: int)
    requires Good(env, l, f0, cap) && 0 <= f0 && 0 < l.fee < cap
    ensures Good(env, Note(l, Bumped(Bump(l.fee, cap))).(fee := Bump(l.fee, cap)), f0, cap)
  {
    var x := Bumped(Bump(l.fee, cap));
    CountAppends(l.log, x, IsCall);
    RecordsGoOn(l.log, x, env);
    FeeLawBumps(l.xdr, l.fee, l.log, f0, cap);
  }

  function Sends(l: Locals): nat {
    Count(l.log, IsSent)
  }

  function Polls(l: Locals): nat {
    Count(l.log, IsPoll)
  }

  lemma OneMore(log: seq<Entry>, x: Entry)
    ensures Count(log + [x], IsSent) == Count(log, IsSent) + if x.Sent? then 1 else 0
    ensures Count(log + [x], IsPoll) == Count(log, IsPoll) + if x.Got? then 1 else 0
    ensures Running(log) && !Ends(x) ==> Running(log + [x])
    ensures Running(log) ==> OnlyLastEnds(log + [x])
  {
    CountAppends(log, x, IsSent);
    CountAppends(log, x, IsPoll);
  }

  lemma SendOnceKeeps(env: Env, l: Locals, f0: int, cap: int)
    requires Good(env, l, f0, cap) && Running(l.log)
    ensures var m := SendOnce(env, l);
      Good(env, m, f0, cap) && Running(m.log) && Sends(m) == Sends(l) + 1 && Polls(m) == Polls(l)
  {
    var x := Sent(l.xdr, env.sends(l.clock));
    CallKeepsGood(env, l, x, f0, cap);
    OneMore(l.log, x);
  }

  lemma SendKeeps(env: Env, l: Locals, f0: int, cap: int)
    requires Good(env, l, f0, cap) && Running(l.log)
    ensures var m := AfterSend(env, l).0;
      && Good(env, m, f0, cap) && Running(m.log)
      && Sends(l) < Sends(m) <= Sends(l) + 2 && Polls(m) == Polls(l)
  {
    SendOnceKeeps(env, l, f0, cap);
    SendOnceKeeps(env, SendOnce(env, l), f0, cap);
  }

  /** What polling leaves: a success at the end, or no end in sight. */
  ghost predicate PolledWell(env: Env, l: Locals, m: Locals, reply: GetReply, left: nat, f0: int, cap: int) {
    && Good(env, m, f0, cap) && Sends(m) == Sends(l) && Polls(m) <= Polls(l) + left
    && EndsIn(m.log, Got(reply)) && OnlyLastEnds(m.log)
    && (IsSuccess(Got(reply)) || Running(m.log))
  }

  lemma {:induction false} PollsKeep(env: Env, l: Locals, left: nat, missed: nat, f0: int, cap: int)
    requires Good(env, l, f0, cap) && Running(l.log) && 0 < left && EndsInMisses(l.log, missed)
    ensures var (m, reply) := AfterPolls(env, l, left);
      && PolledWell(env, l, m, reply, left, f0, cap)
      && (Missed(reply) ==> EndsInMisses(m.log, missed + left))
    decreases left
  {
    var reply := env.gets(l.clock);
    var x := Got(reply);
    CallKeepsGood(env, l, x, f0, cap);
    OneMore(l.log, x);
    if Missed(reply) && 1 < left {
      PollsKeep(env, Call(l, x), left - 1, missed + 1, f0, cap);
    }
  }

  /** What a stretch without sending or polling leaves: an error of the builder, if it throws. */
  ghost predicate RebuiltWell(env: Env, l: Locals, m: Locals, step: Step, f0: int, cap: int) {
    && Good(env, m, f0, cap) && Sends(m) == Sends(l) && Polls(m) == Polls(l)
    && Running(m.log) && !step.Return?
  }

  predicate EndsInFailedRebuild(log: seq<Entry>, e: Error) {
    && log != [] && log[|log| - 1].Build? && log[|log| - 1].buildReply.BuildThrows?
    && log[|log| - 1].buildReply.error == e
  }

  lemma RebuildKeeps(env: Env, l: Locals, f0: int, cap: int)
    requires Good(env, l, f0, cap) && Running(l.log)
    ensures var (m, step) := AfterRebuild(env, l);
      && RebuiltWell(env, l, m, step, f0, cap) && m.fee == l.fee
      && (step.Throw? ==> EndsInFailedRebuild(m.log, step.error) && !step.error.Timeout?)
  {
    var x := Build(l.fee, env.builds(l.clock));
    CallKeepsGood(env, l, x, f0, cap);
    OneMore(l.log, x);
  }

  lemma FeeErrorKeeps(env: Env, l: Locals, o: Options, mayRetry: bool, e: Error, f0: nat)
    requires Good(env, l, f0, o.maxFeeCap) && Running(l.log)
    ensures var (m, step) := AfterFeeError(env, l, o, mayRetry, e);
      && RebuiltWell(env, l, m, step, f0, o.maxFeeCap)
      && (step.Throw? ==>
            || (EndsInFailedRebuild(m.log, step.error) && !step.error.Timeout?)
            || (m == l && step.error == e && !CanBump(l, o, mayRetry)))
  {
    if CanBump(l, o, mayRetry) {
      var x := Bumped(Bump(l.fee, o.maxFeeCap));
      BumpKeepsGood(env, l, f0, o.maxFeeCap);
      OneMore(l.log, x);
      RebuildKeeps(env, Note(l, x).(fee := x.fee), f0, o.maxFeeCap);
    }
  }

  lemma SequenceErrorKeeps(env: Env, l: Locals, o: Options, mayRetry: bool, e: Error, f0: nat)
    requires Good(env, l, f0, o.maxFeeCap) && Running(l.log)
    ensures var (m, step) := AfterSequenceError(env, l, o, mayRetry, e);
      && RebuiltWell(env, l, m, step, f0, o.maxFeeCap)
      && (step.Throw? ==>
            || (EndsInFailedRebuild(m.log, step.error) && !step.error.Timeout?)
            || (m == l && step.error == e && !(mayRetry && o.canRebuild)))
  {
    if mayRetry && o.canRebuild {
      RebuildKeeps(env, l, f0, o.maxFeeCap);
    }
  }

  /** What a try block leaves: a success, or a log that can go on; a timeout only after a round of misses. */
  ghost predicate TriedWell(env: Env, l: Locals, m: Locals, step: Step, f0: int, cap: int) {
    && Good(env, m, f0, cap)
    && Sends(l) < Sends(m) <= Sends(l) + 2 && Polls(m) <= Polls(l) + MAX_POLLS
    && (if step.Return? then step.status.Succeeded? && EndsInSuccess(m.log) && OnlyLastEnds(m.log)
        else Running(m.log))
    && (step == Throw(Timeout) ==> EndsInMisses(m.log, MAX_POLLS))
  }

  /** What follows the last send: no more sends, and polls within a round. */
  ghost predicate RepliedWell(env: Env, m: Locals, n: Locals, step: Step, f0: int, cap: int) {
    && Good(env, n, f0, cap) && Sends(n) == Sends(m) && Polls(n) <= Polls(m) + MAX_POLLS
    && (if step.Return? then step.status.Succeeded? && EndsInSuccess(n.log) && OnlyLastEnds(n.log)
        else Running(n.log))
    && (step == Throw(Timeout) ==> EndsInMisses(n.log, MAX_POLLS))
  }

  lemma RejectionKeeps(env: Env, m: Locals, text: Text, message: Text, o: Options, mayRetry: bool, f0: nat)
    requires Good(env, m, f0, o.maxFeeCap) && Running(m.log)
    ensures var (n, step) := AfterRejection(env, m, text, message, o, mayRetry);
      RepliedWell(env, m, n, step, f0, o.maxFeeCap)
  {
    match text
    case SequenceText => SequenceErrorKeeps(env, m, o, mayRetry, Other(message), f0);
    case FeeText => FeeErrorKeeps(env, m, o, mayRetry, Other(message), f0);
    case _ =>
  }

  lemma AcceptanceKeeps(env: Env, m: Locals, f0: int, cap: int)
    requires Good(env, m, f0, cap) && Running(m.log)
    ensures var (n, found) := AfterPolls(env, m, MAX_POLLS);
      RepliedWell(env, m, n, Settle(found), f0, cap)
  {
    PollsKeep(env, m, MAX_POLLS, 0, f0, cap);
  }

  lemma ReplyKeeps(env: Env, m: Locals, reply: SendReply, o: Options, mayRetry: bool, f0: nat)
    requires Good(env, m, f0, o.maxFeeCap) && Running(m.log)
    ensures var (n, step) := AfterReply(env, m, reply, o, mayRetry);
      RepliedWell(env, m, n, step, f0, o.maxFeeCap)
  {
    match reply
    case SendThrows(_) =>
    case Rejected(text, message) => RejectionKeeps(env, m, text, message, o, mayRetry, f0);
    case Accepted => AcceptanceKeeps(env, m, f0, o.maxFeeCap);
  }

  lemma TryKeeps(env: Env, l: Locals, o: Options, mayRetry: bool, f0: nat)
    requires Good(env, l, f0, o.maxFeeCap) && Running(l.log)
    ensures var (m, step) := AfterTry(env, l, o, mayRetry);
      TriedWell(env, l, m, step, f0, o.maxFeeCap)
  {
    SendKeeps(env, l, f0, o.maxFeeCap);
    var (m, reply) := AfterSend(env, l);
    ReplyKeeps(env, m, reply, o, mayRetry, f0);
  }

  /** Errors that get out although attempts are left: nothing can be rebuilt for them. */
  predicate Hopeless(e: Error, o: Options, fee: int) {
    match TextOf(e)
    case ContractText(_) => true
    case SequenceText => !o.canRebuild
    case FeeText => !(o.canRebuild && 0 < fee < o.maxFeeCap)
    case PlainText => false
  }

  /** An error that does not stop gets out only if a rebuild has failed or none is possible. */
  predicate GetsOutWell(log: seq<Entry>, fee: int, e: Error, o: Options, mayRetry: bool) {
    Stops(e) || !mayRetry || EndsInFailedRebuild(log, e) || Hopeless(e, o, fee)
  }

  lemma CatchKeeps(env: Env, l: Locals, o: Options, mayRetry: bool, e: Error, f0: nat)
    requires Good(env, l, f0, o.maxFeeCap) && Running(l.log) && !Stops(e)
    ensures var (m, step) := AfterCatch(env, l, o, mayRetry, e);
      && RebuiltWell(env, l, m, step, f0, o.maxFeeCap) && step != Throw(Timeout)
      && (step.Throw? ==> GetsOutWell(m.log, m.fee, step.error, o, mayRetry))
  {
    match TextOf(e)
    case SequenceText => SequenceErrorKeeps(env, l, o, mayRetry, e, f0);
    case FeeText => FeeErrorKeeps(env, l, o, mayRetry, e, f0);
    case _ =>
  }

  /** What an attempt leaves. */
  ghost predicate AttemptedWell(env: Env, l: Locals, m: Locals, step: Step, o: Options, mayRetry: bool, f0: int) {
    && Good(env, m, f0, o.maxFeeCap)
    && Sends(l) < Sends(m) <= Sends(l) + 2 && Polls(m) <= Polls(l) + MAX_POLLS
    && (if step.Continue? then Running(m.log) else OnlyLastEnds(m.log))
    && (step.Return? ==> step.status.Succeeded?)
    && (step.Return? <==> EndsInSuccess(m.log))
    && (step == Throw(Timeout) <==> TimedOut(m.log))
    && (step.Throw? ==> GetsOutWell(m.log, m.fee, step.error, o, mayRetry))
  }

  lemma StopKeeps(env: Env, l: Locals, m: Locals, e: Error, o: Options, mayRetry: bool, f0: nat)
    requires TriedWell(env, l, m, Throw(e), f0, o.maxFeeCap) && Stops(e)
    ensures var (n, step) := AfterCatch(env, Note(m, Thrown(e)), o, mayRetry, e);
      AttemptedWell(env, l, n, step, o, mayRetry, f0)
  {
    ThrowKeepsGood(env, m, e, f0, o.maxFeeCap);
    OneMore(m.log, Thrown(e));
    assert (m.log + [Thrown(e)])[..|m.log|] == m.log;
  }

  lemma GoOnKeeps(env: Env, l: Locals, m: Locals, e: Error, o: Options, mayRetry: bool, f0: nat)
    requires TriedWell(env, l, m, Throw(e), f0, o.maxFeeCap) && !Stops(e)
    ensures var (n, step) := AfterCatch(env, Note(m, Thrown(e)), o, mayRetry, e);
      AttemptedWell(env, l, n, step, o, mayRetry, f0)
  {
    ThrowKeepsGood(env, m, e, f0, o.maxFeeCap);
    OneMore(m.log, Thrown(e));
    CatchKeeps(env, Note(m, Thrown(e)), o, mayRetry, e, f0);
  }

  lemma AttemptKeeps(env: Env, l: Locals, o: Options, mayRetry: bool, f0: nat)
    requires Good(env, l, f0, o.maxFeeCap) && Running(l.log)
    ensures var (m, step, kept) := AfterAttempt(env, l, o, mayRetry);
      && AttemptedWell(env, l, m, step, o, mayRetry, f0)
      && (kept.Some? ==> !Stops(kept.value))
  {
    TryKeeps(env, l, o, mayRetry, f0);
    var (m, step) := AfterTry(env, l, o, mayRetry);
    if step.Throw? {
      if Stops(step.error) {
        StopKeeps(env, l, m, step.error, o, mayRetry, f0);
      } else {
        GoOnKeeps(env, l, m, step.error, o, mayRetry, f0);
      }
    }
  }

  // --- What holds of every submission ---

  /** Each attempt sends once or twice and polls at most 30 times. */
  predicate WithinBudget(r: Record, o: Options) {
    && r.attempts <= Count(r.log, IsSent) <= 2 * r.attempts
    && Count(r.log, IsPoll) <= MAX_POLLS * r.attempts
    && if 0 < o.maxAttempts then 1 <= r.attempts <= o.maxAttempts else r.attempts == 0
  }

  /** The outcome is what the end of the log says. */
  ghost predicate EndsAsLogged(r: Record) {
    && OnlyLastEnds(r.log)
    && (r.outcome.Returned? ==> r.outcome.status.Succeeded?)
    && (r.outcome.Returned? <==> EndsInSuccess(r.log))
    && (r.outcome == Raised(Timeout) <==> TimedOut(r.log))
  }

  /** What a submission may claim. */
  ghost predicate Lawful(env: Env, o: Options, f0: int, r: Record) {
    && WithinBudget(r, o) && Records(r.log, env) && FeesFollow(r.log, f0, o.maxFeeCap) && EndsAsLogged(r)
    && (r.outcome.Raised? ==>
          GetsOutWell(r.log, FeeAfter(f0, o.maxFeeCap, Count(r.log, IsBump)), r.outcome.error, o,
                      r.attempts < o.maxAttempts))
  }

  /** What holds whenever the loop starts a turn. */
  ghost predicate TurnIsGood(env: Env, o: Options, t: Turn, f0: int) {
    && Good(env, t.l, f0, o.maxFeeCap) && Running(t.l.log)
    && t.attempts <= Sends(t.l) <= 2 * t.attempts && Polls(t.l) <= MAX_POLLS * t.attempts
    && (t.attempts == 0 || t.attempts <= o.maxAttempts)
    && (t.lastError.Some? ==> !Stops(t.lastError.value))
  }

  function AttemptOf(env: Env, o: Options, t: Turn): (Locals, Step, Option<Error>) {
    AfterAttempt(env, t.l, o, t.attempts + 1 < o.maxAttempts)
  }

  predicate GoesOn(env: Env, o: Options, t: Turn) {
    t.attempts < o.maxAttempts && AttemptOf(env, o, t).1.Continue?
  }

  function NextTurn(env: Env, o: Options, t: Turn): Turn {
    var (m, _, kept) := AttemptOf(env, o, t);
    Turn(m, t.attempts + 1, if kept.Some? then kept else t.lastError)
  }

  /** The turns of the loop, from `t` on. */
  function Turns(env: Env, o: Options, t: Turn): (ts: seq<Turn>)
    ensures ts != [] && ts[0] == t
    decreases o.maxAttempts - t.attempts
  {
    [t] + if GoesOn(env, o, t) then Turns(env, o, NextTurn(env, o, t)) else []
  }

  lemma TurnGoesOn(env: Env, o: Options, t: Turn, f0: nat)
    requires TurnIsGood(env, o, t, f0) && GoesOn(env, o, t)
    ensures TurnIsGood(env, o, NextTurn(env, o, t), f0)
  {
    AttemptKeeps(env, t.l, o, t.attempts + 1 < o.maxAttempts, f0);
  }

  /** Every turn is good, all but the last go on, and each comes to what the first one comes to. */
  lemma {:induction false} TurnsLead(env: Env, o: Options, t: Turn, f0: nat, i: nat)
    requires TurnIsGood(env, o, t, f0) && i < |Turns(env, o, t)|
    ensures var ts := Turns(env, o, t);
      && TurnIsGood(env, o, ts[i], f0)
      && Submitted(env, o, ts[i]) == Submitted(env, o, t)
      && (GoesOn(env, o, ts[i]) <==> i < |ts| - 1)
    decreases o.maxAttempts - t.attempts
  {
    if GoesOn(env, o, t) {
      TurnGoesOn(env, o, t, f0);
      TurnsLead(env, o, NextTurn(env, o, t), f0, if i == 0 then 0 else i - 1);
    }
  }

  lemma LastTurnIsLawful(env: Env, o: Options, t: Turn, f0: nat)
    requires TurnIsGood(env, o, t, f0) && !GoesOn(env, o, t)
    ensures Lawful(env, o, f0, Submitted(env, o, t))
  {
    if t.attempts >= o.maxAttempts {
      assert !EndsInSuccess(t.l.log) && !EndsIn(t.l.log, Thrown(Timeout));
    } else {
      AttemptKeeps(env, t.l, o, t.attempts + 1 < o.maxAttempts, f0);
    }
  }

  lemma FirstTurnIsGood(env: Env, o: Options, parsedFee: Option<nat>)
    ensures TurnIsGood(env, o, FirstTurn(parsedFee), FirstFee(parsedFee))
  {
  }

  lemma SubmissionIsLawful(env: Env, o: Options, parsedFee: Option<nat>)
    ensures Lawful(env, o, FirstFee(parsedFee), Submit(env, o, parsedFee))
  {
    var first, f0 := FirstTurn(parsedFee), FirstFee(parsedFee);
    var ts := Turns(env, o, first);
    FirstTurnIsGood(env, o, parsedFee);
    TurnsLead(env, o, first, f0, |ts| - 1);
    LastTurnIsLawful(env, o, ts[|ts| - 1], f0);
  }

  /**
   Against any environment: the log is the record of the calls made of it; each attempt
   sends once or twice and polls at most 30 times; every fee is the next doubling of the
   first, cut off at the cap.
   */
  lemma SubmissionIsRecorded(env: Env, o: Options, parsedFee: Option<nat>)
    ensures var r := Submit(env, o, parsedFee);
      && WithinBudget(r, o) && Records(r.log, env)
      && FeesFollow(r.log, FirstFee(parsedFee), o.maxFeeCap)
  {
    SubmissionIsLawful(env, o, parsedFee);
  }

  /**
   A response is returned exactly if the last thing that happened was a poll that
   succeeded, a timeout raised exactly after a full round of misses; nothing at all
   happens after a success or an error that stops.
   */
  lemma SubmissionEndsAsLogged(env: Env, o: Options, parsedFee: Option<nat>)
    ensures EndsAsLogged(Submit(env, o, parsedFee))
  {
    SubmissionIsLawful(env, o, parsedFee);
  }

  /** With attempts left, an error that does not stop gets out only if a rebuild has failed or none is possible. */
  lemma ErrorGetsOutWell(env: Env, o: Options, parsedFee: Option<nat>)
    requires Submit(env, o, parsedFee).outcome.Raised?
    ensures var r := Submit(env, o, parsedFee);
      GetsOutWell(r.log, FeeAfter(FirstFee(parsedFee), o.maxFeeCap, Count(r.log, IsBump)), r.outcome.error, o,
                  r.attempts < o.maxAttempts)
  {
    SubmissionIsLawful(env, o, parsedFee);
  }

  // --- The grammar of the log ---

  /** What the latest rebuilding has built; the caller's transaction if there is none. */
  function LatestBuilt(log: seq<Entry>): Xdr {
    if log == [] then Original
    else
      var x := log[|log| - 1];
      if x.Build? && x.buildReply.Built? then Rebuilt(x.fee) else LatestBuilt(log[..|log| - 1])
  }

  /** Every transaction that is sent is the one built latest. */
  predicate SendsLatest(log: seq<Entry>) {
    log != [] ==>
      var before, x := log[..|log| - 1], log[|log| - 1];
      SendsLatest(before) && (x.Sent? ==> x.xdr == LatestBuilt(before))
  }

  function TrailingMisses(log: seq<Entry>): nat {
    if log == [] || !log[|log| - 1].Got? || !Missed(log[|log| - 1].getReply) then 0
    else 1 + TrailingMisses(log[..|log| - 1])
  }

  predicate LastIsSent(log: seq<Entry>) {
    log != [] && log[|log| - 1].Sent?
  }

  /** The fee after the bumps so far can be raised, and the transaction rebuilt. */
  predicate CanRaise(log: seq<Entry>, o: Options, f0: int) {
    o.canRebuild && 0 < FeeAfter(f0, o.maxFeeCap, Count(log, IsBump)) < o.maxFeeCap
  }

  /** What a caught message leads to. */
  predicate LeadsOn(o: Options, f0: int, before: seq<Entry>, message: Text, y: Entry) {
    match message
    case ContractText(_) => false
    case SequenceText => o.canRebuild && y.Build?
    case FeeText => CanRaise(before, o, f0) && y.Bumped?
    case PlainText => y.Sent?
  }

  /** What may come after the entry `x`, which comes after `before`, while attempts are left. */
  predicate Leads(env: Env, o: Options, f0: int, before: seq<Entry>, x: Entry, y: Entry) {
    match x
    case Sent(_, SendThrows(e)) =>
      if !LastIsSent(before) && env.parses(Count(before, IsCall)) then y.Sent? else y == Thrown(e)
    case Sent(_, Rejected(text, message)) =>
      (match text
       case ContractText(decodes) => y == Thrown(if decodes then ContractError else Other(message))
       case SequenceText => if o.canRebuild then y.Build? else y == Thrown(Other(message))
       case FeeText => if CanRaise(before, o, f0) then y.Bumped? else y == Thrown(Other(message))
       case PlainText => y == Thrown(Other(message)))
    case Sent(_, Accepted) => y.Got?
    case Got(GetThrows(e)) => y == Thrown(e)
    case Got(Found(NotFound, _, _)) => if TrailingMisses(before) < 29 then y.Got? else y == Thrown(Timeout)
    case Got(Found(Failed, decodes, message)) => y == Thrown(if decodes then ContractError else Other(message))
    case Got(Found(Succeeded, _, _)) => false
    case Build(_, BuildThrows(e)) => y == Thrown(e)
    case Build(_, Built) => y.Sent?
    case Bumped(_) => y.Build?
    case Thrown(ContractError) => false
    case Thrown(Timeout) => false
    case Thrown(SignerRequired) => y.Sent?
    case Thrown(SimulationError(message)) => LeadsOn(o, f0, before, message, y)
    case Thrown(Other(message)) => LeadsOn(o, f0, before, message, y)
  }

  predicate Next(env: Env, o: Options, f0: int, log: seq<Entry>, y: Entry) {
    if log == [] then y.Sent? else Leads(env, o, f0, log[..|log| - 1], log[|log| - 1], y)
  }

  /** Each entry leads to the next one, and the first is a send. */
  predicate Obeys(env: Env, o: Options, f0: int, log: seq<Entry>) {
    log != [] ==>
      var n := |log| - 1;
      Obeys(env, o, f0, log[..n]) && Next(env, o, f0, log[..n], log[n])
  }

  /** In the last attempt any rejection is thrown. */
  predicate ThrowsRejection(log: seq<Entry>) {
    |log| >= 2 &&
      var x, y := log[|log| - 2], log[|log| - 1];
      x.Sent? && x.sendReply.Rejected? && y == Thrown(Other(x.sendReply.message))
  }

  /** The log follows the grammar, but for a rejection at the end of the last attempt. */
  predicate FollowsGrammar(env: Env, o: Options, f0: int, log: seq<Entry>, left: bool) {
    Obeys(env, o, f0, log) || (!left && ThrowsRejection(log) && Obeys(env, o, f0, log[..|log| - 1]))
  }

  /** The error has been caught, and at most the fee been raised since. */
  predicate Catching(log: seq<Entry>) {
    log != [] &&
      var n := |log| - 1;
      log[n].Thrown? || (log[n].Bumped? && 0 < n && log[n - 1].Thrown?)
  }

  /** Where a submission may end: `left` says whether attempts are left. */
  predicate EndsProperly(o: Options, f0: int, log: seq<Entry>, left: bool) {
    log != [] &&
      var before, x := log[..|log| - 1], log[|log| - 1];
      match x
      case Got(_) => IsSuccess(x)
      case Thrown(e) => Stops(e) || !left || Hopeless(e, o, FeeAfter(f0, o.maxFeeCap, Count(before, IsBump)))
      case Build(_, BuildThrows(_)) => Catching(before)
      case _ => false
  }

  /** What the last entry says of the outcome. */
  function OutcomeOf(log: seq<Entry>): Outcome {
    if log == [] then Raised(Other(PlainText))
    else match log[|log| - 1]
      case Got(_) => Returned(Succeeded)
      case Thrown(SimulationError(ContractText(true))) => Raised(ContractError)
      case Thrown(Other(ContractText(true))) => Raised(ContractError)
      case Thrown(e) => Raised(e)
      case Build(_, BuildThrows(e)) => Raised(e)
      case _ => Raised(Other(PlainText))
  }

  /** The locals are what the log says, and the log follows the grammar so far. */
  predicate Fits(env: Env, o: Options, f0: int, l: Locals) {
    && l.clock == Count(l.log, IsCall)
    && l.fee == FeeAfter(f0, o.maxFeeCap, Count(l.log, IsBump))
    && l.xdr == LatestBuilt(l.log) && SendsLatest(l.log)
    && Obeys(env, o, f0, l.log)
  }

  predicate ReadyToSend(log: seq<Entry>) {
    log == [] ||
      var x := log[|log| - 1];
      (x.Build? && x.buildReply.Built?) || (x.Thrown? && !Stops(x.error) && TextOf(x.error).PlainText?)
  }

  lemma ObeysGoesOn(env: Env, o: Options, f0: int, log: seq<Entry>, x: Entry)
    requires Obeys(env, o, f0, log) && Next(env, o, f0, log, x)
    ensures Obeys(env, o, f0, log + [x])
  {
    assert (log + [x])[..|log|] == log;
  }

  lemma LatestGoesOn(log: seq<Entry>, x: Entry)
    requires SendsLatest(log) && (x.Sent? ==> x.xdr == LatestBuilt(log))
    ensures SendsLatest(log + [x])
    ensures LatestBuilt(log + [x]) == if x.Build? && x.buildReply.Built? then Rebuilt(x.fee) else LatestBuilt(log)
  {
    assert (log + [x])[..|log|] == log;
  }

  lemma CallFits(env: Env, o: Options, f0: int, l: Locals, x: Entry)
    requires Fits(env, o, f0, l) && Next(env, o, f0, l.log, x) && IsCall(x)
    requires (x.Sent? ==> x.xdr == l.xdr) && !(x.Build? && x.buildReply.Built?)
    ensures Fits(env, o, f0, Call(l, x))
  {
    CountAppends(l.log, x, IsCall);
    CountAppends(l.log, x, IsBump);
    ObeysGoesOn(env, o, f0, l.log, x);
    LatestGoesOn(l.log, x);
  }

  lemma ThrowFits(env: Env, o: Options, f0: int, l: Locals, e: Error)
    requires Fits(env, o, f0, l) && Next(env, o, f0, l.log, Thrown(e))
    ensures Fits(env, o, f0, Note(l, Thrown(e)))
  {
    CountAppends(l.log, Thrown(e), IsCall);
    CountAppends(l.log, Thrown(e), IsBump);
    ObeysGoesOn(env, o, f0, l.log, Thrown(e));
    LatestGoesOn(l.log, Thrown(e));
  }

  lemma BumpFits(env: Env, o: Options, f0: int, l: Locals)
    requires Fits(env, o, f0, l) && Next(env, o, f0, l.log, Bumped(Bump(l.fee, o.maxFeeCap)))
    ensures Fits(env, o, f0, Note(l, Bumped(Bump(l.fee, o.maxFeeCap))).(fee := Bump(l.fee, o.maxFeeCap)))
  {
    var x := Bumped(Bump(l.fee, o.maxFeeCap));
    CountAppends(l.log, x, IsCall);
    CountAppends(l.log, x, IsBump);
    ObeysGoesOn(env, o, f0, l.log, x);
    LatestGoesOn(l.log, x);
  }

  /** The locals after a rebuilding that has been made by then. */
  predicate RebuiltFits(env: Env, o: Options, f0: int, m: Locals, step: Step) {
    && Fits(env, o, f0, m) && !step.Return?
    && (step.Continue? ==> ReadyToSend(m.log))
    && (step.Throw? ==> EndsInFailedRebuild(m.log, step.error))
  }

  lemma RebuildFits(env: Env, o: Options, f0: int, l: Locals)
    requires Fits(env, o, f0, l) && Next(env, o, f0, l.log, Build(l.fee, env.builds(l.clock)))
    ensures var (m, step) := AfterRebuild(env, l);
      && RebuiltFits(env, o, f0, m, step)
      && m.log == l.log + [Build(l.fee, env.builds(l.clock))]
  {
    var x := Build(l.fee, env.builds(l.clock));
    CountAppends(l.log, x, IsCall);
    CountAppends(l.log, x, IsBump);
    ObeysGoesOn(env, o, f0, l.log, x);
    LatestGoesOn(l.log, x);
  }

  lemma RaiseFits(env: Env, o: Options, f0: int, l: Locals, e: Error)
    requires Fits(env, o, f0, l) && CanBump(l, o, true)
    requires Next(env, o, f0, l.log, Bumped(Bump(l.fee, o.maxFeeCap)))
    ensures var (m, step) := AfterFeeError(env, l, o, true, e);
      && RebuiltFits(env, o, f0, m, step)
      && |m.log| == |l.log| + 2 && m.log[..|l.log|] == l.log && m.log[|l.log|].Bumped?
  {
    var fee := Bump(l.fee, o.maxFeeCap);
    var bumped := Note(l, Bumped(fee)).(fee := fee);
    BumpFits(env, o, f0, l);
    assert bumped.log[|l.log|] == Bumped(fee);
    RebuildFits(env, o, f0, bumped);
  }

  /** The reply is logged, and if sending has thrown, it is not tried again. */
  predicate SentFits(env: Env, m: Locals, reply: SendReply) {
    && LastIsSent(m.log) && m.log[|m.log| - 1].sendReply == reply
    && (reply.SendThrows? ==>
          LastIsSent(m.log[..|m.log| - 1]) || !env.parses(Count(m.log[..|m.log| - 1], IsCall)))
  }

  lemma SendOnceFits(env: Env, o: Options, f0: int, l: Locals)
    requires Fits(env, o, f0, l) && Next(env, o, f0, l.log, Sent(l.xdr, env.sends(l.clock)))
    ensures var m := SendOnce(env, l);
      && Fits(env, o, f0, m) && m.log[..|l.log|] == l.log
      && LastIsSent(m.log) && m.log[|m.log| - 1] == Sent(l.xdr, env.sends(l.clock))
  {
    CallFits(env, o, f0, l, Sent(l.xdr, env.sends(l.clock)));
  }

  lemma SendAgainFits(env: Env, o: Options, f0: int, l: Locals, m: Locals)
    requires Fits(env, o, f0, m) && m == SendOnce(env, l) && LastIsSent(m.log) && m.log[..|l.log|] == l.log
    requires !LastIsSent(l.log) && l.clock == Count(l.log, IsCall)
    requires env.parses(l.clock) && env.sends(l.clock).SendThrows?
    ensures var n := SendOnce(env, m);
      Fits(env, o, f0, n) && SentFits(env, n, env.sends(l.clock + 1))
  {
    SendOnceFits(env, o, f0, m);
  }

  lemma ReadyIsNext(env: Env, o: Options, f0: int, log: seq<Entry>, x: Entry)
    requires ReadyToSend(log) && x.Sent?
    ensures Next(env, o, f0, log, x) && !LastIsSent(log)
  {
  }

  lemma SendFits(env: Env, o: Options, f0: int, l: Locals)
    requires Fits(env, o, f0, l) && ReadyToSend(l.log)
    ensures var (m, reply) := AfterSend(env, l);
      Fits(env, o, f0, m) && SentFits(env, m, reply)
  {
    var once := SendOnce(env, l);
    ReadyIsNext(env, o, f0, l.log, Sent(l.xdr, env.sends(l.clock)));
    SendOnceFits(env, o, f0, l);
    if env.parses(l.clock) && env.sends(l.clock).SendThrows? {
      SendAgainFits(env, o, f0, l, once);
      FitsAlike(env, o, f0, AfterSend(env, l).0, SendOnce(env, once));
    } else {
      SentOnceFits(env, l, once);
      FitsAlike(env, o, f0, AfterSend(env, l).0, once);
    }
  }

  lemma FitsAlike(env: Env, o: Options, f0: int, l: Locals, m: Locals)
    requires Fits(env, o, f0, m) && l == m
    ensures Fits(env, o, f0, l)
  {
  }

  lemma SentOnceFits(env: Env, l: Locals, m: Locals)
    requires m == SendOnce(env, l) && LastIsSent(m.log) && m.log[..|l.log|] == l.log
    requires l.clock == Count(l.log, IsCall) && !(env.parses(l.clock) && env.sends(l.clock).SendThrows?)
    ensures AfterSend(env, l) == (m, env.sends(l.clock)) && SentFits(env, m, env.sends(l.clock))
  {
  }

  lemma {:induction false} PollsFit(env: Env, o: Options, f0: int, l: Locals, left: nat)
    requires Fits(env, o, f0, l) && 0 < left <= MAX_POLLS && TrailingMisses(l.log) == MAX_POLLS - left
    requires forall y: Entry :: y.Got? ==> Next(env, o, f0, l.log, y)
    ensures var (m, reply) := AfterPolls(env, l, left);
      && Fits(env, o, f0, m) && EndsIn(m.log, Got(reply))
      && (Missed(reply) ==> TrailingMisses(m.log[..|m.log| - 1]) == MAX_POLLS - 1)
    decreases left
  {
    var reply := env.gets(l.clock);
    var m := Call(l, Got(reply));
    CallFits(env, o, f0, l, Got(reply));
    assert m.log[..|l.log|] == l.log;
    if Missed(reply) && 1 < left {
      PollsFit(env, o, f0, m, left - 1);
    }
  }

  /** What a try block leaves: an error to be thrown next, or a rejection at the end of the last attempt. */
  predicate TriedFits(env: Env, o: Options, f0: int, m: Locals, step: Step, mayRetry: bool) {
    && Fits(env, o, f0, m) && m.log != []
    && (step.Return? ==> EndsInSuccess(m.log) && step.status.Succeeded?)
    && (step.Continue? ==> mayRetry && ReadyToSend(m.log))
    && (step.Throw? ==>
          || Next(env, o, f0, m.log, Thrown(step.error))
          || (!mayRetry && ThrowsRejection(m.log + [Thrown(step.error)])))
  }

  lemma RejectionFits(env: Env, o: Options, f0: int, m: Locals, text: Text, message: Text, mayRetry: bool)
    requires Fits(env, o, f0, m) && SentFits(env, m, Rejected(text, message))
    ensures var (n, step) := AfterRejection(env, m, text, message, o, mayRetry);
      TriedFits(env, o, f0, n, step, mayRetry)
  {
    match text
    case SequenceText =>
      if mayRetry && o.canRebuild {
        RebuildFits(env, o, f0, m);
      }
    case FeeText =>
      if CanBump(m, o, mayRetry) {
        RaiseFits(env, o, f0, m, Other(message));
      }
    case _ =>
  }

  lemma SettleFits(env: Env, o: Options, f0: int, n: Locals, found: GetReply, mayRetry: bool)
    requires Fits(env, o, f0, n) && EndsIn(n.log, Got(found))
    requires Missed(found) ==> TrailingMisses(n.log[..|n.log| - 1]) == MAX_POLLS - 1
    ensures TriedFits(env, o, f0, n, Settle(found), mayRetry)
  {
    match found
    case GetThrows(_) =>
    case Found(NotFound, _, _) =>
    case Found(Failed, _, _) =>
    case Found(Succeeded, _, _) => assert IsSuccess(n.log[|n.log| - 1]);
  }

  lemma AcceptanceFits(env: Env, o: Options, f0: int, m: Locals, mayRetry: bool)
    requires Fits(env, o, f0, m) && SentFits(env, m, Accepted)
    ensures var (n, found) := AfterPolls(env, m, MAX_POLLS);
      TriedFits(env, o, f0, n, Settle(found), mayRetry)
  {
    PollsFit(env, o, f0, m, MAX_POLLS);
    var (n, found) := AfterPolls(env, m, MAX_POLLS);
    SettleFits(env, o, f0, n, found, mayRetry);
  }

  lemma TryFits(env: Env, o: Options, f0: int, l: Locals, mayRetry: bool)
    requires Fits(env, o, f0, l) && ReadyToSend(l.log)
    ensures var (m, step) := AfterTry(env, l, o, mayRetry);
      TriedFits(env, o, f0, m, step, mayRetry)
  {
    SendFits(env, o, f0, l);
    var (m, reply) := AfterSend(env, l);
    match reply
    case SendThrows(_) =>
    case Rejected(text, message) => RejectionFits(env, o, f0, m, text, message, mayRetry);
    case Accepted => AcceptanceFits(env, o, f0, m, mayRetry);
  }

  /** What an attempt leaves: it is ready for the next one, or the submission ends here. */
  predicate AttemptedFits(env: Env, o: Options, f0: int, m: Locals, step: Step, kept: Option<Error>, mayRetry: bool) {
    && m.log != [] && SendsLatest(m.log)
    && (step.Continue? && mayRetry ==> Fits(env, o, f0, m) && ReadyToSend(m.log))
    && (!(step.Continue? && mayRetry) ==>
          FollowsGrammar(env, o, f0, m.log, mayRetry) && EndsProperly(o, f0, m.log, mayRetry))
    && (step.Return? ==> OutcomeOf(m.log) == Returned(step.status))
    && (step.Throw? ==> OutcomeOf(m.log) == Raised(step.error))
    && (step.Continue? && !mayRetry ==> kept.Some? && OutcomeOf(m.log) == Raised(kept.value))
  }

  /** The attempt ends in the catch block, or with a rebuilding for the next one. */
  predicate CaughtFits(env: Env, o: Options, f0: int, m: Locals, step: Step, mayRetry: bool) {
    && m.log != [] && Fits(env, o, f0, m) && !step.Return?
    && (step.Continue? ==> mayRetry && ReadyToSend(m.log))
    && (step.Throw? ==> EndsProperly(o, f0, m.log, mayRetry) && OutcomeOf(m.log) == Raised(step.error))
  }

  lemma CatchSequenceFits(env: Env, o: Options, f0: int, l: Locals, e: Error, mayRetry: bool)
    requires Fits(env, o, f0, l) && EndsIn(l.log, Thrown(e)) && !Stops(e) && TextOf(e).SequenceText?
    ensures var (m, step) := AfterSequenceError(env, l, o, mayRetry, e);
      CaughtFits(env, o, f0, m, step, mayRetry)
  {
    if mayRetry && o.canRebuild {
      RebuildFits(env, o, f0, l);
      assert (l.log + [Build(l.fee, env.builds(l.clock))])[..|l.log|] == l.log;
    }
  }

  lemma CatchFeeFits(env: Env, o: Options, f0: int, l: Locals, e: Error, mayRetry: bool)
    requires Fits(env, o, f0, l) && EndsIn(l.log, Thrown(e)) && !Stops(e) && TextOf(e).FeeText?
    ensures var (m, step) := AfterFeeError(env, l, o, mayRetry, e);
      CaughtFits(env, o, f0, m, step, mayRetry)
  {
    if CanBump(l, o, mayRetry) {
      RaiseFits(env, o, f0, l, e);
      assert AfterFeeError(env, l, o, mayRetry, e).0.log[|l.log| - 1] == Thrown(e);
    }
  }

  /** The catch block, after an error that the grammar lets follow. */
  lemma CatchFits(env: Env, o: Options, f0: int, l: Locals, e: Error, mayRetry: bool)
    requires Fits(env, o, f0, l) && EndsIn(l.log, Thrown(e))
    ensures var (m, step) := AfterCatch(env, l, o, mayRetry, e);
      AttemptedFits(env, o, f0, m, step, if TextOf(e).PlainText? then Some(e) else None, mayRetry)
  {
    if !Stops(e) {
      match TextOf(e)
      case SequenceText => CatchSequenceFits(env, o, f0, l, e, mayRetry);
      case FeeText => CatchFeeFits(env, o, f0, l, e, mayRetry);
      case _ =>
    }
  }

  lemma CatchRejection(env: Env, o: Options, f0: int, l: Locals, e: Error)
    requires Fits(env, o, f0, l) && ThrowsRejection(l.log + [Thrown(e)])
    ensures var (m, step) := AfterCatch(env, Note(l, Thrown(e)), o, false, e);
      AttemptedFits(env, o, f0, m, step, if TextOf(e).PlainText? then Some(e) else None, false)
  {
    assert (l.log + [Thrown(e)])[..|l.log|] == l.log;
    LatestGoesOn(l.log, Thrown(e));
  }

  lemma AttemptFits(env: Env, o: Options, f0: int, l: Locals, mayRetry: bool)
    requires Fits(env, o, f0, l) && ReadyToSend(l.log)
    ensures var (m, step, kept) := AfterAttempt(env, l, o, mayRetry);
      AttemptedFits(env, o, f0, m, step, kept, mayRetry)
  {
    TryFits(env, o, f0, l, mayRetry);
    var (m, step) := AfterTry(env, l, o, mayRetry);
    if step.Throw? {
      if Next(env, o, f0, m.log, Thrown(step.error)) {
        ThrowFits(env, o, f0, m, step.error);
        CatchFits(env, o, f0, Note(m, Thrown(step.error)), step.error, mayRetry);
      } else {
        CatchRejection(env, o, f0, m, step.error);
      }
    }
  }

  /** What the grammar says of a record. */
  predicate Grammatical(env: Env, o: Options, f0: int, r: Record) {
    && SendsLatest(r.log)
    && FollowsGrammar(env, o, f0, r.log, r.attempts < o.maxAttempts)
    && EndsProperly(o, f0, r.log, r.attempts < o.maxAttempts)
    && r.outcome == OutcomeOf(r.log)
  }

  lemma {:induction false} TurnIsGrammatical(env: Env, o: Options, f0: int, t: Turn)
    requires t.attempts < o.maxAttempts && Fits(env, o, f0, t.l) && ReadyToSend(t.l.log)
    ensures Grammatical(env, o, f0, Submitted(env, o, t))
    decreases o.maxAttempts - t.attempts
  {
    AttemptFits(env, o, f0, t.l, t.attempts + 1 < o.maxAttempts);
    if AttemptOf(env, o, t).1.Continue? && t.attempts + 1 < o.maxAttempts {
      TurnIsGrammatical(env, o, f0, NextTurn(env, o, t));
    }
  }

  /** The first entry is the sending of the caller's transaction. */
  lemma {:induction false} StartsWithOriginal(env: Env, o: Options, f0: int, log: seq<Entry>)
    requires log != [] && SendsLatest(log) && (Obeys(env, o, f0, log) || Obeys(env, o, f0, log[..|log| - 1]))
    requires |log| == 1 ==> Obeys(env, o, f0, log)
    ensures log[0].Sent? && log[0].xdr == Original
  {
    if |log| > 1 {
      StartsWithOriginal(env, o, f0, log[..|log| - 1]);
    } else {
      assert log[..0] == [];
    }
  }

  /**
   Every submission that makes an attempt at all: each transaction sent is the one built
   latest; each entry of the log leads to the next one as the grammar says, so that a
   sequence or fee error is followed by the rebuilding, and that by the next send, while
   attempts are left; it ends where it may, and with the outcome that the last entry names.
   */
  lemma SubmissionFollowsGrammar(env: Env, o: Options, parsedFee: Option<nat>)
    ensures var r := Submit(env, o, parsedFee);
      if 0 < o.maxAttempts then
        && Grammatical(env, o, FirstFee(parsedFee), r)
        && r.log != [] && r.log[0].Sent? && r.log[0].xdr == Original
      else r == Record(Raised(Other(PlainText)), [], 0)
    ensures Submit(env, o, None) == Submit(env, o, Some(100))
  {
    if 0 < o.maxAttempts {
      TurnIsGrammatical(env, o, FirstFee(parsedFee), FirstTurn(parsedFee));
      StartsWithOriginal(env, o, FirstFee(parsedFee), Submit(env, o, parsedFee).log);
    }
  }

  // --- What the environment's answers lead to ---

  function AnswerTo(env: Env, t: nat): SendReply {
    env.sends(AnswerClock(env, t) - 1)
  }

  /** The k-th poll from clock `u` on is the first that does not miss, within one round. */
  ghost predicate FirstHit(env: Env, u: nat, k: nat) {
    k < MAX_POLLS && !Missed(env.gets(u + k)) && forall j: nat :: u <= j < u + k ==> Missed(env.gets(j))
  }

  ghost predicate HitsWith(env: Env, u: nat, k: nat, reply: GetReply) {
    FirstHit(env, u, k) && env.gets(u + k) == reply
  }

  /** An attempt that starts at clock `t` is accepted, and the first poll that finds the transaction answers `reply`. */
  ghost predicate Finds(env: Env, t: nat, reply: GetReply) {
    && AnswerTo(env, t).Accepted?
    && exists k: nat :: HitsWith(env, AnswerClock(env, t), k, reply)
  }

  ghost predicate Succeeds(env: Env, t: nat) {
    exists reply :: Finds(env, t, reply) && IsSuccess(Got(reply))
  }

  ghost predicate MissesUpTo(env: Env, u: nat, v: nat) {
    forall j: nat :: u <= j < v ==> Missed(env.gets(j))
  }

  /** An attempt that starts at clock `t` is accepted, and all polls of a round miss. */
  ghost predicate FindsNothing(env: Env, t: nat) {
    var u := AnswerClock(env, t);
    AnswerTo(env, t).Accepted? && MissesUpTo(env, u, u + MAX_POLLS)
  }

  /** The contract has failed in a way that can be decoded, on sending or on the ledger. */
  ghost predicate ContractFails(env: Env, t: nat) {
    || (AnswerTo(env, t).Rejected? && AnswerTo(env, t).text == ContractText(true))
    || exists reply: GetReply ::
         Finds(env, t, reply) && reply.Found? && reply.status.Failed? && reply.decodes
  }

  lemma {:induction false} PollsFindFirstHit(env: Env, l: Locals, left: nat)
    requires 0 < left <= MAX_POLLS
    ensures var reply := AfterPolls(env, l, left).1;
      if Missed(reply) then MissesUpTo(env, l.clock, l.clock + left)
      else exists k: nat :: HitsWith(env, l.clock, k, reply)
    ensures MissesUpTo(env, l.clock, l.clock + left) ==> Missed(AfterPolls(env, l, left).1)
    decreases left
  {
    var first := env.gets(l.clock);
    if !Missed(first) {
      assert HitsWith(env, l.clock, 0, first);
    } else if 1 < left {
      var m := Call(l, Got(first));
      var reply := AfterPolls(env, m, left - 1).1;
      PollsFindFirstHit(env, m, left - 1);
      if !Missed(reply) {
        var k := FirstHitOf(env, m, left - 1);
        assert HitsWith(env, l.clock, k + 1, reply);
      }
    }
  }

  lemma {:induction false} FirstHitOf(env: Env, l: Locals, left: nat) returns (k: nat)
    requires 0 < left <= MAX_POLLS && !Missed(AfterPolls(env, l, left).1)
    ensures k < left && HitsWith(env, l.clock, k, AfterPolls(env, l, left).1)
    decreases left
  {
    var first := env.gets(l.clock);
    if Missed(first) {
      k := FirstHitOf(env, Call(l, Got(first)), left - 1);
      k := k + 1;
    } else {
      k := 0;
    }
  }

  lemma HitIsUnique(env: Env, u: nat, j: nat, k: nat, x: GetReply, y: GetReply)
    requires HitsWith(env, u, j, x) && HitsWith(env, u, k, y)
    ensures x == y && !MissesUpTo(env, u, u + MAX_POLLS)
  {
    assert j == k;
  }

  function FoundBy(env: Env, l: Locals): GetReply {
    AfterPolls(env, AfterSend(env, l).0, MAX_POLLS).1
  }

  /** The polls of an accepted attempt end with the first hit, or with a miss if there is none. */
  lemma AcceptedFinds(env: Env, l: Locals, reply: GetReply)
    requires AnswerTo(env, l.clock).Accepted?
    ensures Finds(env, l.clock, reply) <==> !Missed(FoundBy(env, l)) && FoundBy(env, l) == reply
    ensures FindsNothing(env, l.clock) <==> Missed(FoundBy(env, l))
  {
    var m, u := AfterSend(env, l).0, AnswerClock(env, l.clock);
    assert m.clock == u;
    PollsFindFirstHit(env, m, MAX_POLLS);
    if Finds(env, l.clock, reply) {
      var j: nat :| HitsWith(env, u, j, reply);
      HitIsUnique(env, u, j, j, reply, reply);
      var k := FirstHitOf(env, m, MAX_POLLS);
      HitIsUnique(env, u, j, k, reply, FoundBy(env, l));
    }
  }

  /** The catch block makes neither a response nor a timeout, and lets a contract error through. */
  lemma AttemptEndsAsTried(env: Env, l: Locals, o: Options, mayRetry: bool)
    ensures var tried, (m, step, _) := AfterTry(env, l, o, mayRetry).1, AfterAttempt(env, l, o, mayRetry);
      && (step.Return? <==> tried.Return?)
      && (step == Throw(Timeout) <==> tried == Throw(Timeout))
      && (tried == Throw(ContractError) ==> step == tried && EndsIn(m.log, Thrown(ContractError)))
  {
  }

  /** A rebuilding makes neither a response nor a timeout. */
  lemma RebuildNeverEnds(env: Env, l: Locals, o: Options, mayRetry: bool, e: Error)
    requires !e.Timeout?
    ensures var step := AfterFeeError(env, l, o, mayRetry, e).1; !step.Return? && step != Throw(Timeout)
    ensures var step := AfterSequenceError(env, l, o, mayRetry, e).1; !step.Return? && step != Throw(Timeout)
  {
  }

  /** An answer other than acceptance leads neither to a response nor to a timeout. */
  lemma RefusedTry(env: Env, l: Locals, o: Options, mayRetry: bool)
    requires !AnswerTo(env, l.clock).Accepted?
    ensures var step := AfterTry(env, l, o, mayRetry).1;
      && !step.Return? && step != Throw(Timeout)
      && (ContractFails(env, l.clock) ==> step == Throw(ContractError))
  {
    var (m, reply) := AfterSend(env, l);
    if reply.Rejected? {
      RebuildNeverEnds(env, m, o, mayRetry, Other(reply.message));
    }
  }

  lemma AcceptedTry(env: Env, l: Locals, o: Options, mayRetry: bool)
    requires AnswerTo(env, l.clock).Accepted?
    ensures var step := AfterTry(env, l, o, mayRetry).1;
      && (step.Return? <==> Succeeds(env, l.clock))
      && (step == Throw(Timeout) <==> FindsNothing(env, l.clock))
      && (ContractFails(env, l.clock) ==> step == Throw(ContractError))
  {
    var found := FoundBy(env, l);
    assert AfterTry(env, l, o, mayRetry).1 == Settle(found);
    forall reply ensures Finds(env, l.clock, reply) <==> !Missed(found) && found == reply {
      AcceptedFinds(env, l, reply);
    }
    AcceptedFinds(env, l, found);
  }

  /**
   One attempt returns a response exactly if it is accepted and the first poll that finds
   the transaction reports success, and times out exactly if all polls miss; a contract
   failure that can be decoded is raised.
   */
  lemma AttemptEndsAsAnswered(env: Env, l: Locals, o: Options, mayRetry: bool)
    ensures var (m, step, _) := AfterAttempt(env, l, o, mayRetry);
      && (step.Return? <==> Succeeds(env, l.clock))
      && (step == Throw(Timeout) <==> FindsNothing(env, l.clock))
      && (ContractFails(env, l.clock) ==> step == Throw(ContractError) && EndsIn(m.log, Thrown(ContractError)))
  {
    AttemptEndsAsTried(env, l, o, mayRetry);
    if AnswerTo(env, l.clock).Accepted? {
      AcceptedTry(env, l, o, mayRetry);
    } else {
      RefusedTry(env, l, o, mayRetry);
    }
  }

  /**
   The submission as a whole: it returns a response exactly if its last attempt succeeds,
   times out exactly if the last one finds nothing, and ends with a contract error at the
   first attempt in which the contract fails.
   */
  lemma SubmissionEndsAsAnswered(env: Env, o: Options, parsedFee: Option<nat>, i: nat)
    requires i < |Turns(env, o, FirstTurn(parsedFee))|
    ensures var ts := Turns(env, o, FirstTurn(parsedFee));
      var t, r := ts[i], Submit(env, o, parsedFee);
      t.attempts < o.maxAttempts ==>
        && (i == |ts| - 1 ==>
              && (r.outcome.Returned? <==> Succeeds(env, t.l.clock))
              && (r.outcome == Raised(Timeout) <==> FindsNothing(env, t.l.clock)))
        && (i < |ts| - 1 ==> !Succeeds(env, t.l.clock) && !FindsNothing(env, t.l.clock))
        && (ContractFails(env, t.l.clock) ==> i == |ts| - 1 && r.outcome == Raised(ContractError))
  {
    var first := FirstTurn(parsedFee);
    FirstTurnIsGood(env, o, parsedFee);
    TurnsLead(env, o, first, FirstFee(parsedFee), i);
    var t := Turns(env, o, first)[i];
    AttemptEndsAsAnswered(env, t.l, o, t.attempts + 1 < o.maxAttempts);
  }

  // --- The client's retries ---

  predicate Retryable(e: Error) {
    !e.ContractError? && !e.SimulationError? && !e.SignerRequired?
  }

  /** What one invocation comes to: its outcome and the log of its submission. */
  datatype Invocation = Invocation(outcome: Outcome, log: seq<Entry>)

  function Invoke(env: Env, o: Options, parsedFee: Option<nat>, build: BuildReply): Invocation {
    match build
    case BuildThrows(e) => Invocation(Raised(e), [])
    case Built =>
      var r := Submit(env, o, parsedFee);
      Invocation(r.outcome, r.log)
  }

  predicate Settled(outcome: Outcome) {
    outcome.Returned? || !Retryable(outcome.error)
  }

  /** The calls that are made of a function, from the n-th on. */
  function CallsMade(fn: nat -> Invocation, n: nat, retries: nat): (made: seq<Invocation>)
    ensures |made| <= retries && (0 < retries ==> made != [])
    decreases retries
  {
    if retries == 0 then []
    else [fn(n)] + if Settled(fn(n).outcome) then [] else CallsMade(fn, n + 1, retries - 1)
  }

  /**
   The k-th call made is the k-th call of the function. It is called again exactly after an
   error that is not a contract, simulation or signer error, while retries are left.
   */
  lemma {:induction false} RepeatsExactlyAfterRetryable(fn: nat -> Invocation, n: nat, retries: nat, k: nat)
    requires k < |CallsMade(fn, n, retries)|
    ensures var made := CallsMade(fn, n, retries);
      && made[k] == fn(n + k)
      && (k + 1 < |made| <==>
            && k + 1 < retries && made[k].outcome.Raised?
            && var e := made[k].outcome.error; !e.ContractError? && !e.SimulationError? && !e.SignerRequired?)
    decreases retries
  {
    if k > 0 {
      RepeatsExactlyAfterRetryable(fn, n + 1, retries - 1, k - 1);
    }
  }

  lemma CallIsNext(fn: nat -> Invocation, retries: nat, i: nat)
    requires i < |CallsMade(fn, 0, retries)|
    ensures var all := CallsMade(fn, 0, retries);
      && all[..i] + [fn(i)] == all[..i + 1]
      && (i + 1 < |all| <==> i + 1 < retries && !Settled(fn(i).outcome))
  {
    RepeatsExactlyAfterRetryable(fn, 0, retries, i);
  }

  /** Calls the function up to `retries` times. */
  method WithRetry(fn: nat -> Invocation, retries: nat := 3) returns (outcome: Outcome, made: seq<Invocation>)
    requires 0 < retries
    ensures made == CallsMade(fn, 0, retries) && outcome == made[|made| - 1].outcome
  {
    made := [];
    outcome := Raised(Other(PlainText));
    var i := 0;
    ghost var all := CallsMade(fn, 0, retries);
    while i < retries
      invariant 0 <= i <= |all| && made == all[..i]
      invariant 0 < i ==> outcome == made[i - 1].outcome
      invariant i < |all| <==> i < retries
    {
      var r := fn(i);
      CallIsNext(fn, retries, i);
      made, outcome := made + [r], r.outcome;
      i := i + 1;
      if outcome.Returned? || !Retryable(outcome.error) {
        break;
      }
    }
    assert all[..|all|] == all;
  }

  /** The surroundings of the client: one environment and one building for each invocation. */
  datatype World = World(envs: nat -> Env, builds: nat -> BuildReply, o: Options, parsedFee: Option<nat>)
  {
    /** The n-th call of what the client hands to `withRetry`. */
    function Closure(): nat -> Invocation {
      (n: nat) => Invoke(envs(n), o, parsedFee, builds(n))
    }
  }

  /** Builds the transaction and submits it. */
  method InvokeOnce(env: Env, o: Options, parsedFee: Option<nat>, build: BuildReply) returns (r: Invocation)
    ensures r == Invoke(env, o, parsedFee, build)
    ensures build.BuildThrows? ==> r == Invocation(Raised(build.error), [])
  {
    match build {
      case BuildThrows(e) => return Invocation(Raised(e), []);
      case Built =>
        var submission := SubmitTransaction(env, o, parsedFee);
        return Invocation(submission.outcome, submission.log);
    }
  }

  method InvokeContract(w: World) returns (outcome: Outcome, made: seq<Invocation>)
    ensures made == CallsMade(w.Closure(), 0, 3) && outcome == made[|made| - 1].outcome
  {
    outcome, made := WithRetry(w.Closure());
  }

  /** Two sends for each attempt. */
  function SendBudget(o: Options): nat {
    if 0 < o.maxAttempts then 2 * o.maxAttempts else 0
  }

  function TotalSends(made: seq<Invocation>): nat {
    if made == [] then 0 else Count(made[0].log, IsSent) + TotalSends(made[1..])
  }

  lemma {:induction false} CallsSendWithin(fn: nat -> Invocation, n: nat, retries: nat, budget: nat)
    requires forall k: nat :: Count(fn(k).log, IsSent) <= budget
    ensures TotalSends(CallsMade(fn, n, retries)) <= retries * budget
    decreases retries
  {
    if retries > 0 {
      CallsSendWithin(fn, n + 1, retries - 1, budget);
      var rest := if Settled(fn(n).outcome) then [] else CallsMade(fn, n + 1, retries - 1);
      assert ([fn(n)] + rest)[1..] == rest;
      assert retries * budget == (retries - 1) * budget + budget;
      MulMonotone(0, retries - 1, budget);
    }
  }

  lemma InvokeSendsWithin(env: Env, o: Options, parsedFee: Option<nat>, build: BuildReply)
    ensures Count(Invoke(env, o, parsedFee, build).log, IsSent) <= SendBudget(o)
  {
    if build.Built? {
      SubmissionIsLawful(env, o, parsedFee);
    }
  }

  /** All invocations of a contract call together send at most three times as often as one may. */
  lemma RetriesSendWithinBudget(w: World)
    ensures TotalSends(CallsMade(w.Closure(), 0, 3)) <= 3 * SendBudget(w.o)
  {
    forall k: nat ensures Count(w.Closure()(k).log, IsSent) <= SendBudget(w.o) {
      InvokeSendsWithin(w.envs(k), w.o, w.parsedFee, w.builds(k));
    }
    CallsSendWithin(w.Closure(), 0, 3, SendBudget(w.o));
  }

  /** A timeout is not among the errors that end the retries: the function is called again after it. */
  lemma TimeoutIsRetried(fn: nat -> Invocation, n: nat, retries: nat)
    requires 1 < retries && fn(n).outcome == Raised(Timeout)
    ensures 1 < |CallsMade(fn, n, retries)| && CallsMade(fn, n, retries)[1] == fn(n + 1)
  {
    RepeatsExactlyAfterRetryable(fn, n, retries, 0);
    RepeatsExactlyAfterRetryable(fn, n, retries, 1);
  }

  /** An environment that accepts everything and never finds it. */
  const SILENT_RPC := Env(_ => true, _ => Accepted, _ => Found(NotFound, false, PlainText), _ => Built)

  lemma SilenceTimesOut(o: Options, parsedFee: Option<nat>)
    requires 0 < o.maxAttempts
    ensures Submit(SILENT_RPC, o, parsedFee).outcome == Raised(Timeout)
    ensures 0 < Count(Submit(SILENT_RPC, o, parsedFee).log, IsSent)
  {
    SubmissionIsLawful(SILENT_RPC, o, parsedFee);
    AttemptEndsAsAnswered(SILENT_RPC, FirstTurn(parsedFee).l, o, 1 < o.maxAttempts);
    assert FindsNothing(SILENT_RPC, 0);
  }

  lemma TimeoutsAreRetried(fn: nat -> Invocation)
    requires forall n: nat :: fn(n).outcome == Raised(Timeout)
    ensures CallsMade(fn, 0, 3) == [fn(0), fn(1), fn(2)]
  {
    RepeatsExactlyAfterRetryable(fn, 0, 3, 0);
    RepeatsExactlyAfterRetryable(fn, 0, 3, 1);
    RepeatsExactlyAfterRetryable(fn, 0, 3, 2);
  }

  /** If the RPC accepts everything and finds nothing, the call is sent three times, each time until a timeout. */
  lemma SilenceIsSentThrice(o: Options, parsedFee: Option<nat>)
    requires 0 < o.maxAttempts
    ensures var made := CallsMade(World(_ => SILENT_RPC, _ => Built, o, parsedFee).Closure(), 0, 3);
      |made| == 3 && forall k :: 0 <= k < 3 ==> made[k].outcome == Raised(Timeout) && 0 < Count(made[k].log, IsSent)
  {
    var fn := World(_ => SILENT_RPC, _ => Built, o, parsedFee).Closure();
    SilenceTimesOut(o, parsedFee);
    forall n: nat ensures fn(n) == Invoke(SILENT_RPC, o, parsedFee, Built) {}
    TimeoutsAreRetried(fn);
  }
}
