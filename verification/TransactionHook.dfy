/**
 The transaction submission hook (react/src/hooks.ts, `useTransactionSubmission`).
 Each submit, retry or refetch starts a run; a run is a program counter with its
 locals, every await is a point where any other event may come in between.
 */
module TransactionHook {
  import opened Wrappers
  import opened Arithmetic

  datatype Status = Idle | Simulating | Signing | Submitting | Confirmed | Failed

  /** An absent hash is the empty one. */
  datatype TxResult = TxResult(success: bool, hash: string)

  /** A caught and decoded error; `terminal` means that it is not worth a retry. */
  datatype Error = Error(message: string, terminal: bool)

  datatype Action = Callback | Stages(simulate: bool, sign: bool, pollStatus: bool)

  datatype Config = Config(requireWallet: bool, maxRetries: int, maxPollAttempts: int, clientPolls: bool)
  {
    function Attempts(): nat {
      if 0 < maxRetries then 1 + maxRetries else 1
    }

    function Polls(): nat {
      if 1 < maxPollAttempts then maxPollAttempts else 1
    }
  }

  /** Where a run is suspended. */
  datatype Pc =
    | AwaitAction
    | AwaitSimulate
    | AwaitSign
    | AwaitSend
    | AwaitPoll(hash: string, polls: nat)
    | PollDelay(hash: string, polls: nat)
    | PollDelayOver(hash: string, polls: nat, ok: bool)
    | PollSettled(outcome: Result<TxResult, Error>)
    | RetryDelay
    | RetryDelayOver(ok: bool)
    | Hung
    | Done

  /** `refetch` runs have no action; `polling` is the custom poll that is in force. */
  datatype Run = Run(action: Option<Action>, polling: bool, attempt: nat, advanced: bool, pc: Pc)

  /** What the user interface sees, with the two refs that follow it. */
  datatype View = View(
    status: Status,
    statusRef: Status,
    txHash: Option<string>,
    txHashRef: Option<string>,
    data: Option<TxResult>,
    error: Option<Error>,
    retryCount: nat)

  datatype Hook = Hook(view: View, mounted: bool, active: nat, lastAction: Option<Action>, runs: map<nat, Run>)

  const BLANK_VIEW := View(Idle, Idle, None, None, None, None, 0)

  const INITIAL_HOOK := Hook(BLANK_VIEW, true, 0, None, map[])

  /** A run may write only while the hook is mounted and the run is the latest one. */
  predicate MayWrite(h: Hook, r: nat) {
    h.mounted && r == h.active
  }

  function SetStatus(v: View, s: Status): View {
    v.(status := s, statusRef := s)
  }

  /** updateStatus with a run id */
  function UpdateStatus(h: Hook, s: Status, r: nat): Hook {
    if MayWrite(h, r) then h.(view := SetStatus(h.view, s)) else h
  }

  function SetHash(h: Hook, hash: string): Hook {
    h.(view := h.view.(txHash := Some(hash), txHashRef := Some(hash)))
  }

  function SetRun(h: Hook, r: nat, run: Run): Hook {
    h.(runs := h.runs[r := run])
  }

  function Suspend(h: Hook, r: nat, pc: Pc): Hook
    requires r in h.runs
  {
    SetRun(h, r, h.runs[r].(pc := pc))
  }

  /** clearAllTimers: a run that waits for a timer is never resumed. */
  function ClearTimers(h: Hook): Hook {
    h.(runs := map r | r in h.runs ::
         if h.runs[r].pc.RetryDelay? || h.runs[r].pc.PollDelay? then h.runs[r].(pc := Hung) else h.runs[r])
  }

  /** waitDelay: a run that is superseded already is told so at once. */
  function Delay(h: Hook, r: nat, waiting: Pc, refused: Pc): Hook
    requires r in h.runs
  {
    Suspend(h, r, if MayWrite(h, r) then waiting else refused)
  }

  // --- One run, from one await to the next ---

  const TIMED_OUT := Error("timed out", false)

  const CANCELLED := Error("cancelled", false)

  /** The loop head of pollLedgerStatus. */
  function PollTop(c: Config, h: Hook, r: nat, hash: string, polls: nat): Hook
    requires r in h.runs
  {
    if polls >= c.Polls() then Suspend(h, r, PollSettled(Failure(TIMED_OUT)))
    else if !MayWrite(h, r) then Suspend(h, r, PollSettled(Failure(CANCELLED)))
    else if h.runs[r].polling || c.clientPolls then Suspend(h, r, AwaitPoll(hash, polls + 1))
    else Suspend(h, r, PollSettled(Success(TxResult(true, hash))))
  }

  function AfterSign(h: Hook, r: nat): Hook
    requires r in h.runs
  {
    if !MayWrite(h, r) then Suspend(h, r, Done)
    else Suspend(UpdateStatus(h, Submitting, r), r, AwaitSend)
  }

  function AfterSimulate(h: Hook, r: nat): Hook
    requires r in h.runs
  {
    if !MayWrite(h, r) then Suspend(h, r, Done)
    else
      var g := UpdateStatus(h, Signing, r);
      if h.runs[r].action.Some? && h.runs[r].action.value.Stages? && h.runs[r].action.value.sign
      then Suspend(g, r, AwaitSign)
      else AfterSign(g, r)
  }

  /** A new attempt: count it, show it, start simulating. */
  function Begin(h: Hook, r: nat): Hook
    requires r in h.runs
  {
    var n := h.runs[r].attempt + 1;
    var counted := if n > 1 && MayWrite(h, r) then h.(view := h.view.(retryCount := n - 1)) else h;
    SetRun(UpdateStatus(counted, Simulating, r), r, h.runs[r].(attempt := n, advanced := false))
  }

  /** The loop head of submit. */
  function StartAttempt(c: Config, h: Hook, r: nat): Hook
    requires r in h.runs
  {
    var run := h.runs[r];
    if run.action.None? || run.attempt >= c.Attempts() then Suspend(h, r, Done)
    else
      var g := Begin(h, r);
      if run.action.value.Callback? then Suspend(g, r, AwaitAction)
      else if run.action.value.simulate then Suspend(g, r, AwaitSimulate)
      else AfterSimulate(g, r)
  }

  /** The catch blocks of submit and refetch. */
  function Caught(c: Config, h: Hook, r: nat, e: Error): Hook
    requires r in h.runs
  {
    if !MayWrite(h, r) then Suspend(h, r, Done)
    else if h.runs[r].action.Some? && h.runs[r].attempt < c.Attempts() && !e.terminal then
      Delay(h, r, RetryDelay, RetryDelayOver(false))
    else Suspend(UpdateStatus(h.(view := h.view.(error := Some(e))), Failed, r), r, Done)
  }

  /** The end of the try blocks; `callbackError` is what onSuccess throws, if it does. */
  function Finish(c: Config, h: Hook, r: nat, result: TxResult, failure: Error, callbackError: Option<Error>): Hook
    requires r in h.runs
  {
    if !MayWrite(h, r) then Suspend(h, r, Done)
    else
      var g := if result.hash != "" || h.runs[r].action.None? then SetHash(h, result.hash) else h;
      if !result.success then Caught(c, g, r, failure)
      else
        var k := UpdateStatus(g.(view := g.view.(data := Some(result), error := None)), Confirmed, r);
        if callbackError.Some? then Caught(c, k, r, callbackError.value) else Suspend(k, r, Done)
  }

  /** What a pending promise settles to. */
  datatype PollStatus = Succeeded | Rejected | Pending

  datatype Reply =
    | Ready
    | Returned(result: TxResult)
    | SentHash(hash: string)
    | SentOutput(hash: string, success: Option<bool>)
    | Polled(status: PollStatus)
    | Threw(error: Error)

  /** A settled promise, with the errors that the code builds itself on the way. */
  datatype Settlement = Settlement(reply: Reply, failure: Error, callbackError: Option<Error>)

  function AfterSend(c: Config, h: Hook, r: nat, s: Settlement): Hook
    requires r in h.runs
  {
    if !MayWrite(h, r) then Suspend(h, r, Done)
    else match s.reply
      case SentHash(hash) => PollTop(c, SetHash(h, hash), r, hash, 0)
      case SentOutput(hash, success) =>
        var g := if hash != "" then SetHash(h, hash) else h;
        if h.runs[r].polling && hash != "" && success.None? then PollTop(c, g, r, hash, 0)
        else
          var result := TxResult(success.None? || success.value, hash);
          Finish(c, g, r, result, s.failure, s.callbackError)
      case _ => h
  }

  function AfterAction(c: Config, h: Hook, r: nat, s: Settlement): Hook
    requires r in h.runs && s.reply.Returned?
  {
    if !MayWrite(h, r) then Suspend(h, r, Done)
    else
      var g := if h.runs[r].advanced then h else UpdateStatus(UpdateStatus(h, Signing, r), Submitting, r);
      Finish(c, g, r, s.reply.result, s.failure, s.callbackError)
  }

  function AfterPoll(c: Config, h: Hook, r: nat, hash: string, polls: nat, s: Settlement): Hook
    requires r in h.runs
  {
    match s.reply
    case Polled(Succeeded) => Suspend(h, r, PollSettled(Success(TxResult(true, hash))))
    case Polled(Rejected) => Suspend(h, r, PollSettled(Failure(s.failure)))
    case Polled(Pending) =>
      if polls < c.Polls() then Delay(h, r, PollDelay(hash, polls), PollDelayOver(hash, polls, false))
      else PollTop(c, h, r, hash, polls)
    case _ => h
  }

  /** Continues the run `r` with what it was waiting for. A reply of the wrong kind cannot occur. */
  function Resume(c: Config, h: Hook, r: nat, s: Settlement): Hook {
    if r !in h.runs then h
    else match h.runs[r].pc
      case AwaitPoll(hash, polls) =>
        if s.reply.Threw? then Suspend(h, r, PollSettled(Failure(s.reply.error)))
        else AfterPoll(c, h, r, hash, polls, s)
      case PollDelay(hash, polls) => Suspend(h, r, PollDelayOver(hash, polls, MayWrite(h, r)))
      case PollDelayOver(hash, polls, ok) =>
        if ok then PollTop(c, h, r, hash, polls)
        else Suspend(h, r, PollSettled(Failure(CANCELLED)))
      case PollSettled(Success(result)) => Finish(c, h, r, result, s.failure, s.callbackError)
      case PollSettled(Failure(e)) => Caught(c, h, r, e)
      case RetryDelay => Suspend(h, r, RetryDelayOver(MayWrite(h, r)))
      case RetryDelayOver(ok) => if ok then StartAttempt(c, h, r) else Suspend(h, r, Done)
      case Hung => h
      case Done => h
      case pc =>
        if s.reply.Threw? then Caught(c, h, r, s.reply.error)
        else if pc.AwaitAction? && s.reply.Returned? then AfterAction(c, h, r, s)
        else if pc.AwaitSimulate? && s.reply.Ready? then AfterSimulate(h, r)
        else if pc.AwaitSign? && s.reply.Ready? then AfterSign(h, r)
        else if pc.AwaitSend? then AfterSend(c, h, r, s)
        else h
  }

  // --- The hook ---

  datatype Phase = MarkSimulating | MarkSigning | MarkSubmitting(hash: string)

  datatype Event =
    | Submit(action: Action, walletError: Option<Error>)
    | Retry(walletError: Option<Error>, noAction: Error)
    | Refetch(overrideHash: Option<string>)
    | Reset
    | Unmount
    | Settle(run: nat, settlement: Settlement)
    | Mark(run: nat, attempt: nat, phase: Phase)

  predicate StartsRun(e: Event) {
    e.Submit? || e.Retry? || e.Refetch?
  }

  /** The latest run is the next one; what the last one showed is wiped. */
  function Open(h: Hook, action: Action): Hook {
    var r := h.active + 1;
    var g := ClearTimers(h).(active := r, lastAction := Some(action));
    var blank := if h.mounted
      then g.(view := g.view.(error := None, data := None, txHash := None, txHashRef := None, retryCount := 0))
      else g;
    SetRun(blank, r, Run(Some(action), action.Stages? && action.pollStatus, 0, false, Done))
  }

  function DoSubmit(c: Config, h: Hook, action: Action, walletError: Option<Error>): Hook {
    var g, r := Open(h, action), h.active + 1;
    if c.requireWallet && walletError.Some? then
      if MayWrite(g, r) then UpdateStatus(g.(view := g.view.(error := walletError)), Failed, r) else g
    else StartAttempt(c, g, r)
  }

  function DoRefetch(c: Config, h: Hook, overrideHash: Option<string>): Hook {
    var target := if overrideHash.Some? then overrideHash else h.view.txHashRef;
    if target.None? || target.value == "" then h
    else
      var polling := h.lastAction.Some? && h.lastAction.value.Stages? && h.lastAction.value.pollStatus;
      PollTop(c, OpenRefetch(h, polling), h.active + 1, target.value, 0)
  }

  function OpenRefetch(h: Hook, polling: bool): Hook {
    var r := h.active + 1;
    UpdateStatus(SetRun(h.(active := r), r, Run(None, polling, 0, false, Done)), Submitting, r)
  }

  /** The callbacks given to an action may be called at any time, also after the run is over. */
  function DoMark(h: Hook, r: nat, attempt: nat, phase: Phase): Hook {
    if r !in h.runs || h.runs[r].action != Some(Callback) then h
    else
      var g := if h.runs[r].attempt == attempt then SetRun(h, r, h.runs[r].(advanced := true)) else h;
      match phase
      case MarkSimulating => UpdateStatus(g, Simulating, r)
      case MarkSigning => UpdateStatus(g, Signing, r)
      case MarkSubmitting(hash) =>
        UpdateStatus(if hash != "" && MayWrite(g, r) then SetHash(g, hash) else g, Submitting, r)
  }

  function Step(c: Config, h: Hook, e: Event): Hook {
    match e
    case Submit(action, walletError) => DoSubmit(c, h, action, walletError)
    case Retry(walletError, noAction) =>
      if h.lastAction.Some? then DoSubmit(c, h, h.lastAction.value, walletError)
      else if h.mounted then h.(view := SetStatus(h.view.(error := Some(noAction)), Failed))
      else h
    case Refetch(overrideHash) => DoRefetch(c, h, overrideHash)
    case Reset =>
      var g := ClearTimers(h).(active := h.active + 1);
      if h.mounted then g.(view := BLANK_VIEW) else g.(view := g.view.(txHashRef := None))
    case Unmount => ClearTimers(h).(mounted := false, active := h.active + 1)
    case Settle(r, s) => Resume(c, h, r, s)
    case Mark(r, attempt, phase) => DoMark(h, r, attempt, phase)
  }

  function RunAll(c: Config, h: Hook, events: seq<Event>): Hook {
    if events == [] then h else Step(c, RunAll(c, h, events[..|events| - 1]), events[|events| - 1])
  }

  // --- What holds at every await point ---

  /** Success is shown with its data and no error, failure with its error, idleness with nothing. */
  predicate Honest(v: View) {
    && v.status == v.statusRef
    && (v.status.Confirmed? ==> v.data.Some? && v.data.value.success && v.error.None?)
    && (v.status.Failed? ==> v.error.Some?)
    && (v.status.Idle? ==> v.txHash.None? && v.data.None? && v.error.None?)
  }

  predicate RunWithinBounds(c: Config, run: Run) {
    && run.attempt <= c.Attempts()
    && (run.pc.AwaitPoll? ==> 1 <= run.pc.polls <= c.Polls())
    && (run.pc.PollDelay? ==> run.pc.polls <= c.Polls())
    && (run.pc.PollDelayOver? ==> run.pc.polls <= c.Polls())
    && (run.pc.PollSettled? && run.pc.outcome.Success? ==> run.pc.outcome.value.success)
  }

  ghost predicate RunsOk(c: Config, active: nat, runs: map<nat, Run>) {
    forall r :: r in runs ==> r <= active && RunWithinBounds(c, runs[r])
  }

  /** While the component is mounted, the ref that a refetch reads holds the hash that is shown. */
  predicate HashesAgree(h: Hook) {
    h.mounted ==> h.view.txHash == h.view.txHashRef
  }

  ghost predicate Inv(c: Config, h: Hook) {
    && Honest(h.view) && HashesAgree(h)
    && RunsOk(c, h.active, h.runs)
    && (h.mounted && h.active in h.runs ==> !h.view.status.Idle?)
  }

  lemma SuspendKeepsInv(c: Config, h: Hook, r: nat, pc: Pc)
    requires Inv(c, h) && r in h.runs && RunWithinBounds(c, h.runs[r].(pc := pc))
    ensures Inv(c, Suspend(h, r, pc))
  {
  }

  lemma PollTopKeepsInv(c: Config, h: Hook, r: nat, hash: string, polls: nat)
    requires Inv(c, h) && r in h.runs
    ensures Inv(c, PollTop(c, h, r, hash, polls))
  {
  }

  lemma AfterSignKeepsInv(c: Config, h: Hook, r: nat)
    requires Inv(c, h) && r in h.runs
    ensures Inv(c, AfterSign(h, r))
  {
  }

  lemma AfterSimulateKeepsInv(c: Config, h: Hook, r: nat)
    requires Inv(c, h) && r in h.runs
    ensures Inv(c, AfterSimulate(h, r))
  {
    AfterSignKeepsInv(c, UpdateStatus(h, Signing, r), r);
  }

  lemma CaughtKeepsInv(c: Config, h: Hook, r: nat, e: Error)
    requires Inv(c, h) && r in h.runs
    ensures Inv(c, Caught(c, h, r, e))
  {
  }

  lemma FinishKeepsInv(c: Config, h: Hook, r: nat, result: TxResult, failure: Error, callbackError: Option<Error>)
    requires Inv(c, h) && r in h.runs
    ensures Inv(c, Finish(c, h, r, result, failure, callbackError))
  {
    if MayWrite(h, r) {
      var g := if result.hash != "" || h.runs[r].action.None? then SetHash(h, result.hash) else h;
      if !result.success {
        CaughtKeepsInv(c, g, r, failure);
      } else {
        var k := UpdateStatus(g.(view := g.view.(data := Some(result), error := None)), Confirmed, r);
        assert Inv(c, k);
        if callbackError.Some? {
          CaughtKeepsInv(c, k, r, callbackError.value);
        }
      }
    }
  }

  lemma BeginKeepsInv(c: Config, h: Hook, r: nat)
    requires r in h.runs && h.runs[r].attempt < c.Attempts() && RunsOk(c, h.active, h.runs) && HashesAgree(h)
    requires Inv(c, h) || MayWrite(h, r)
    ensures Inv(c, Begin(h, r))
  {
    var g := Begin(h, r);
    assert RunWithinBounds(c, g.runs[r]);
    assert RunsOk(c, g.active, g.runs);
  }

  lemma StartAttemptKeepsInv(c: Config, h: Hook, r: nat)
    requires r in h.runs && RunsOk(c, h.active, h.runs) && HashesAgree(h)
    requires Inv(c, h) || (MayWrite(h, r) && h.runs[r].action.Some? && h.runs[r].attempt < c.Attempts())
    ensures Inv(c, StartAttempt(c, h, r))
  {
    var run := h.runs[r];
    if run.action.None? || run.attempt >= c.Attempts() {
      SuspendKeepsInv(c, h, r, Done);
    } else {
      BeginKeepsInv(c, h, r);
      var g := Begin(h, r);
      if run.action.value.Callback? {
        SuspendKeepsInv(c, g, r, AwaitAction);
      } else if run.action.value.simulate {
        SuspendKeepsInv(c, g, r, AwaitSimulate);
      } else {
        AfterSimulateKeepsInv(c, g, r);
      }
    }
  }

  lemma AfterSendKeepsInv(c: Config, h: Hook, r: nat, s: Settlement)
    requires Inv(c, h) && r in h.runs && !h.view.status.Idle?
    ensures Inv(c, AfterSend(c, h, r, s))
  {
    match s.reply
    case SentHash(hash) => PollTopKeepsInv(c, SetHash(h, hash), r, hash, 0);
    case SentOutput(hash, success) =>
      var g := if hash != "" then SetHash(h, hash) else h;
      PollTopKeepsInv(c, g, r, hash, 0);
      FinishKeepsInv(c, g, r, TxResult(success.None? || success.value, hash), s.failure, s.callbackError);
    case _ =>
  }

  lemma AfterActionKeepsInv(c: Config, h: Hook, r: nat, s: Settlement)
    requires Inv(c, h) && r in h.runs && s.reply.Returned?
    ensures Inv(c, AfterAction(c, h, r, s))
  {
    if MayWrite(h, r) {
      var g := if h.runs[r].advanced then h else UpdateStatus(UpdateStatus(h, Signing, r), Submitting, r);
      FinishKeepsInv(c, g, r, s.reply.result, s.failure, s.callbackError);
    }
  }

  lemma AfterPollKeepsInv(c: Config, h: Hook, r: nat, hash: string, polls: nat, s: Settlement)
    requires Inv(c, h) && r in h.runs && polls <= c.Polls()
    ensures Inv(c, AfterPoll(c, h, r, hash, polls, s))
  {
    match s.reply
    case Polled(Succeeded) => SuspendKeepsInv(c, h, r, PollSettled(Success(TxResult(true, hash))));
    case Polled(Rejected) => SuspendKeepsInv(c, h, r, PollSettled(Failure(s.failure)));
    case Polled(Pending) =>
      if polls < c.Polls() {
        DelayKeepsInv(c, h, r, PollDelay(hash, polls), PollDelayOver(hash, polls, false));
      } else {
        PollTopKeepsInv(c, h, r, hash, polls);
      }
    case _ =>
  }

  lemma DelayKeepsInv(c: Config, h: Hook, r: nat, waiting: Pc, refused: Pc)
    requires Inv(c, h) && r in h.runs
    requires RunWithinBounds(c, h.runs[r].(pc := waiting)) && RunWithinBounds(c, h.runs[r].(pc := refused))
    ensures Inv(c, Delay(h, r, waiting, refused))
  {
    if MayWrite(h, r) {
      SuspendKeepsInv(c, h, r, waiting);
    } else {
      SuspendKeepsInv(c, h, r, refused);
    }
  }

  lemma ResumeKeepsInv(c: Config, h: Hook, r: nat, s: Settlement)
    requires Inv(c, h)
    ensures Inv(c, Resume(c, h, r, s))
  {
    if r in h.runs {
      match h.runs[r].pc
      case AwaitPoll(hash, polls) => AfterPollKeepsInv(c, h, r, hash, polls, s);
      case PollDelay(hash, polls) =>
      case PollDelayOver(hash, polls, ok) => PollTopKeepsInv(c, h, r, hash, polls);
      case PollSettled(Success(result)) => FinishKeepsInv(c, h, r, result, s.failure, s.callbackError);
      case PollSettled(Failure(e)) => CaughtKeepsInv(c, h, r, e);
      case RetryDelay =>
      case RetryDelayOver(ok) => StartAttemptKeepsInv(c, h, r);
      case Hung =>
      case Done =>
      case pc =>
        if s.reply.Threw? {
          CaughtKeepsInv(c, h, r, s.reply.error);
        } else if pc.AwaitAction? && s.reply.Returned? {
          AfterActionKeepsInv(c, h, r, s);
        } else if pc.AwaitSimulate? {
          AfterSimulateKeepsInv(c, h, r);
        } else if pc.AwaitSign? {
          AfterSignKeepsInv(c, h, r);
        } else if pc.AwaitSend? && MayWrite(h, r) {
          AfterSendKeepsInv(c, h, r, s);
        }
    }
  }

  lemma ClearTimersKeepsInv(c: Config, h: Hook)
    requires Inv(c, h)
    ensures Inv(c, ClearTimers(h))
  {
  }

  lemma OpenKeepsRuns(c: Config, h: Hook, action: Action)
    requires Inv(c, h)
    ensures RunsOk(c, h.active + 1, Open(h, action).runs) && HashesAgree(Open(h, action))
    ensures !h.mounted ==> Inv(c, Open(h, action))
  {
    ClearTimersKeepsInv(c, h);
  }

  lemma SubmitKeepsInv(c: Config, h: Hook, action: Action, walletError: Option<Error>)
    requires Inv(c, h)
    ensures Inv(c, DoSubmit(c, h, action, walletError))
  {
    OpenKeepsRuns(c, h, action);
    if c.requireWallet && walletError.Some? {
      RefusalKeepsInv(c, h, action, walletError);
    } else {
      OpenIsReady(c, h, action);
      StartAttemptKeepsInv(c, Open(h, action), h.active + 1);
      SubmitStarts(c, h, action, walletError);
      InvAlike(c, DoSubmit(c, h, action, walletError), StartAttempt(c, Open(h, action), h.active + 1));
    }
  }

  lemma OpenIsReady(c: Config, h: Hook, action: Action)
    requires Inv(c, h)
    ensures var g, r := Open(h, action), h.active + 1;
      && r in g.runs && g.active == r && g.runs[r].action.Some? && g.runs[r].attempt < c.Attempts()
      && g.mounted == h.mounted
  {
  }

  lemma SubmitStarts(c: Config, h: Hook, action: Action, walletError: Option<Error>)
    requires !(c.requireWallet && walletError.Some?)
    ensures DoSubmit(c, h, action, walletError) == StartAttempt(c, Open(h, action), h.active + 1)
  {
  }

  lemma InvAlike(c: Config, g: Hook, h: Hook)
    requires Inv(c, h) && g == h
    ensures Inv(c, g)
  {
  }

  lemma RefusalKeepsInv(c: Config, h: Hook, action: Action, walletError: Option<Error>)
    requires Inv(c, h) && c.requireWallet && walletError.Some?
    ensures Inv(c, DoSubmit(c, h, action, walletError))
  {
    OpenKeepsRuns(c, h, action);
    var g, r := Open(h, action), h.active + 1;
    assert MayWrite(g, r) <==> h.mounted;
  }

  lemma OpenRefetchKeepsInv(c: Config, h: Hook, polling: bool)
    requires Inv(c, h)
    ensures Inv(c, OpenRefetch(h, polling)) && h.active + 1 in OpenRefetch(h, polling).runs
  {
  }

  lemma RefetchKeepsInv(c: Config, h: Hook, overrideHash: Option<string>)
    requires Inv(c, h)
    ensures Inv(c, DoRefetch(c, h, overrideHash))
  {
    var target := if overrideHash.Some? then overrideHash else h.view.txHashRef;
    if target.Some? && target.value != "" {
      var polling := h.lastAction.Some? && h.lastAction.value.Stages? && h.lastAction.value.pollStatus;
      var g := OpenRefetch(h, polling);
      assert Inv(c, g) && h.active + 1 in g.runs by {
        OpenRefetchKeepsInv(c, h, polling);
      }
      PollTopKeepsInv(c, g, h.active + 1, target.value, 0);
    }
  }

  lemma MarkKeepsInv(c: Config, h: Hook, r: nat, attempt: nat, phase: Phase)
    requires Inv(c, h)
    ensures Inv(c, DoMark(h, r, attempt, phase))
  {
  }

  lemma StepKeepsInv(c: Config, h: Hook, e: Event)
    requires Inv(c, h)
    ensures Inv(c, Step(c, h, e))
  {
    match e
    case Submit(action, walletError) => SubmitKeepsInv(c, h, action, walletError);
    case Retry(walletError, noAction) =>
      if h.lastAction.Some? {
        SubmitKeepsInv(c, h, h.lastAction.value, walletError);
      }
    case Refetch(overrideHash) => RefetchKeepsInv(c, h, overrideHash);
    case Reset => ClearTimersKeepsInv(c, h);
    case Unmount => ClearTimersKeepsInv(c, h);
    case Settle(r, s) => ResumeKeepsInv(c, h, r, s);
    case Mark(r, attempt, phase) => MarkKeepsInv(c, h, r, attempt, phase);
  }

  /** Every interleaving of calls, marks, settlements and timers keeps the display honest. */
  lemma {:induction false} EveryInterleavingIsHonest(c: Config, events: seq<Event>)
    ensures Inv(c, RunAll(c, INITIAL_HOOK, events)) && Honest(RunAll(c, INITIAL_HOOK, events).view)
  {
    if events != [] {
      EveryInterleavingIsHonest(c, events[..|events| - 1]);
      StepKeepsInv(c, RunAll(c, INITIAL_HOOK, events[..|events| - 1]), events[|events| - 1]);
    }
  }

  // --- Superseded runs ---

  /** What belongs to the run `r`: its settlements and its callbacks. */
  predicate Concerns(e: Event, r: nat) {
    (e.Settle? && e.run == r) || (e.Mark? && e.run == r)
  }

  /** A run that is not the latest, or outlives the component, changes nothing that is shown. */
  lemma SupersededRunWritesNothing(c: Config, h: Hook, e: Event, r: nat)
    requires Concerns(e, r) && !MayWrite(h, r)
    ensures var g := Step(c, h, e);
      g.view == h.view && g.active == h.active && g.mounted == h.mounted && g.lastAction == h.lastAction
  {
  }

  /** `g` differs from `h` in nothing but the view and the run `r`. */
  ghost predicate Frame(h: Hook, g: Hook, r: nat) {
    && g.active == h.active && g.mounted == h.mounted && g.lastAction == h.lastAction
    && g.runs.Keys == h.runs.Keys
    && (forall q :: q in h.runs && q != r ==> g.runs[q] == h.runs[q])
  }

  lemma FinishFrame(c: Config, h: Hook, r: nat, result: TxResult, failure: Error, callbackError: Option<Error>)
    requires r in h.runs
    ensures Frame(h, Finish(c, h, r, result, failure, callbackError), r)
  {
  }

  lemma StartAttemptFrame(c: Config, h: Hook, r: nat)
    requires r in h.runs
    ensures Frame(h, StartAttempt(c, h, r), r)
  {
  }

  lemma AfterSendFrame(c: Config, h: Hook, r: nat, s: Settlement)
    requires r in h.runs
    ensures Frame(h, AfterSend(c, h, r, s), r)
  {
    if MayWrite(h, r) && s.reply.SentOutput? {
      var g := if s.reply.hash != "" then SetHash(h, s.reply.hash) else h;
      var result := TxResult(s.reply.success.None? || s.reply.success.value, s.reply.hash);
      FinishFrame(c, g, r, result, s.failure, s.callbackError);
    }
  }

  lemma AfterActionFrame(c: Config, h: Hook, r: nat, s: Settlement)
    requires r in h.runs && s.reply.Returned?
    ensures Frame(h, AfterAction(c, h, r, s), r)
  {
    if MayWrite(h, r) {
      var g := if h.runs[r].advanced then h else UpdateStatus(UpdateStatus(h, Signing, r), Submitting, r);
      FinishFrame(c, g, r, s.reply.result, s.failure, s.callbackError);
    }
  }

  lemma PollTopFrame(c: Config, h: Hook, r: nat, hash: string, polls: nat)
    requires r in h.runs
    ensures Frame(h, PollTop(c, h, r, hash, polls), r)
  {
  }

  lemma AfterPollFrame(c: Config, h: Hook, r: nat, hash: string, polls: nat, s: Settlement)
    requires r in h.runs
    ensures Frame(h, AfterPoll(c, h, r, hash, polls, s), r)
  {
    PollTopFrame(c, h, r, hash, polls);
  }

  lemma CaughtFrame(c: Config, h: Hook, r: nat, e: Error)
    requires r in h.runs
    ensures Frame(h, Caught(c, h, r, e), r)
  {
  }

  lemma AfterSimulateFrame(h: Hook, r: nat)
    requires r in h.runs
    ensures Frame(h, AfterSimulate(h, r), r)
  {
  }

  /** A run's step leaves the run counter, the mount flag and all other runs alone. */
  lemma ResumeFrame(c: Config, h: Hook, r: nat, s: Settlement)
    ensures Frame(h, Resume(c, h, r, s), r)
  {
    if r in h.runs {
      match h.runs[r].pc
      case AwaitPoll(hash, polls) => AfterPollFrame(c, h, r, hash, polls, s);
      case PollDelay(_, _) =>
      case PollDelayOver(hash, polls, _) => PollTopFrame(c, h, r, hash, polls);
      case PollSettled(Success(result)) => FinishFrame(c, h, r, result, s.failure, s.callbackError);
      case PollSettled(Failure(e)) => CaughtFrame(c, h, r, e);
      case RetryDelay =>
      case RetryDelayOver(_) => StartAttemptFrame(c, h, r);
      case Hung =>
      case Done =>
      case pc =>
        if s.reply.Threw? {
          CaughtFrame(c, h, r, s.reply.error);
        } else if pc.AwaitAction? && s.reply.Returned? {
          AfterActionFrame(c, h, r, s);
        } else if pc.AwaitSimulate? {
          AfterSimulateFrame(h, r);
        } else if pc.AwaitSend? {
          AfterSendFrame(c, h, r, s);
        }
    }
  }

  lemma StepNeverRevives(c: Config, h: Hook, e: Event, r: nat)
    requires r <= h.active && !MayWrite(h, r)
    ensures var g := Step(c, h, e); r <= g.active && !MayWrite(g, r)
  {
    match e
    case Settle(q, s) => ResumeFrame(c, h, q, s);
    case _ =>
  }

  /** Once superseded, a run stays so, and so never writes again. */
  lemma {:induction false} SupersededForever(c: Config, h: Hook, events: seq<Event>, r: nat, e: Event)
    requires r <= h.active && !MayWrite(h, r) && Concerns(e, r)
    ensures var g := RunAll(c, h, events); r <= g.active && !MayWrite(g, r) && Step(c, g, e).view == g.view
  {
    if events != [] {
      SupersededForever(c, h, events[..|events| - 1], r, e);
      StepNeverRevives(c, RunAll(c, h, events[..|events| - 1]), events[|events| - 1], r);
    }
    SupersededRunWritesNothing(c, RunAll(c, h, events), e, r);
  }

  /** After a reset nothing is shown until a new run is started, whatever the old runs still do. */
  lemma {:induction false} ResetIsFinal(c: Config, before: seq<Event>, after: seq<Event>)
    requires RunAll(c, INITIAL_HOOK, before).mounted
    requires forall i :: 0 <= i < |after| ==> !StartsRun(after[i])
    ensures var h := RunAll(c, Step(c, RunAll(c, INITIAL_HOOK, before), Reset), after);
      h.view == BLANK_VIEW && Inv(c, h) && h.active !in h.runs
  {
    if after == [] {
      EveryInterleavingIsHonest(c, before);
      StepKeepsInv(c, RunAll(c, INITIAL_HOOK, before), Reset);
    } else {
      var n := |after| - 1;
      ResetIsFinal(c, before, after[..n]);
      BlankStaysBlank(c, RunAll(c, Step(c, RunAll(c, INITIAL_HOOK, before), Reset), after[..n]), after[n]);
    }
  }

  lemma BlankStaysBlank(c: Config, h: Hook, e: Event)
    requires Inv(c, h) && h.view == BLANK_VIEW && h.active !in h.runs && !StartsRun(e)
    ensures var g := Step(c, h, e); g.view == BLANK_VIEW && Inv(c, g) && g.active !in g.runs
  {
    StepKeepsInv(c, h, e);
    if e.Settle? || e.Mark? {
      ResumeWithoutRun(c, h, e);
    }
  }

  lemma ResumeWithoutRun(c: Config, h: Hook, e: Event)
    requires (e.Settle? || e.Mark?) && h.active !in h.runs
    ensures Step(c, h, e).view == h.view && Step(c, h, e).active == h.active && h.active !in Step(c, h, e).runs
  {
    if e.run in h.runs {
      SupersededRunWritesNothing(c, h, e, e.run);
    }
    if e.Settle? {
      ResumeFrame(c, h, e.run, e.settlement);
    }
  }

  // --- Every run ends ---

  function PcRank(c: Config, pc: Pc): int {
    var left := 3 * c.Polls();
    match pc
    case Hung => 0
    case Done => 0
    case RetryDelayOver(_) => 1
    case RetryDelay => 2
    case PollSettled(_) => 3
    case PollDelayOver(_, polls, _) => 4 + left - 3 * polls
    case PollDelay(_, polls) => 5 + left - 3 * polls
    case AwaitPoll(_, polls) => 6 + left - 3 * polls
    case AwaitSend => 4 + left
    case AwaitSign => 5 + left
    case AwaitSimulate => 6 + left
    case AwaitAction => 6 + left
  }

  /** Ahead: in a later attempt, or in the same one with less to wait for. */
  predicate Ahead(c: Config, next: Run, run: Run) {
    next.attempt > run.attempt || (next.attempt == run.attempt && PcRank(c, next.pc) < PcRank(c, run.pc))
  }

  /** From `h` to `g` the run `r` has not moved, or it is ahead. */
  predicate MovesAhead(c: Config, h: Hook, g: Hook, r: nat) {
    && r in h.runs && r in g.runs
    && (g.runs[r] == h.runs[r] || Ahead(c, g.runs[r], h.runs[r]))
  }

  lemma CaughtMovesAhead(c: Config, h: Hook, r: nat, e: Error)
    requires r in h.runs && 2 < PcRank(c, h.runs[r].pc)
    ensures MovesAhead(c, h, Caught(c, h, r, e), r)
  {
  }

  lemma FinishMovesAhead(c: Config, h: Hook, r: nat, result: TxResult, failure: Error, callbackError: Option<Error>)
    requires r in h.runs && 2 < PcRank(c, h.runs[r].pc)
    ensures MovesAhead(c, h, Finish(c, h, r, result, failure, callbackError), r)
  {
  }

  lemma AfterSendMovesAhead(c: Config, h: Hook, r: nat, s: Settlement)
    requires r in h.runs && h.runs[r].pc.AwaitSend?
    ensures MovesAhead(c, h, AfterSend(c, h, r, s), r)
  {
    if s.reply.SentOutput? {
      var g := if s.reply.hash != "" then SetHash(h, s.reply.hash) else h;
      var result := TxResult(s.reply.success.None? || s.reply.success.value, s.reply.hash);
      FinishMovesAhead(c, g, r, result, s.failure, s.callbackError);
    }
  }

  lemma AfterActionMovesAhead(c: Config, h: Hook, r: nat, s: Settlement)
    requires r in h.runs && h.runs[r].pc.AwaitAction? && s.reply.Returned?
    ensures MovesAhead(c, h, AfterAction(c, h, r, s), r)
  {
    var g := if h.runs[r].advanced then h else UpdateStatus(UpdateStatus(h, Signing, r), Submitting, r);
    FinishMovesAhead(c, g, r, s.reply.result, s.failure, s.callbackError);
  }

  lemma AfterPollMovesAhead(c: Config, h: Hook, r: nat, hash: string, polls: nat, s: Settlement)
    requires r in h.runs && h.runs[r].pc == AwaitPoll(hash, polls) && polls <= c.Polls()
    ensures MovesAhead(c, h, AfterPoll(c, h, r, hash, polls, s), r)
  {
  }

  lemma StartAttemptMovesAhead(c: Config, h: Hook, r: nat)
    requires r in h.runs && h.runs[r].pc.RetryDelayOver?
    ensures MovesAhead(c, h, StartAttempt(c, h, r), r)
  {
  }

  lemma PollTopMovesAhead(c: Config, h: Hook, r: nat, hash: string, polls: nat)
    requires r in h.runs && polls <= c.Polls() && 3 + 3 * (c.Polls() - polls) < PcRank(c, h.runs[r].pc)
    ensures MovesAhead(c, h, PollTop(c, h, r, hash, polls), r)
  {
  }

  lemma AfterSimulateMovesAhead(c: Config, h: Hook, r: nat)
    requires r in h.runs && h.runs[r].pc.AwaitSimulate?
    ensures MovesAhead(c, h, AfterSimulate(h, r), r)
  {
  }

  lemma AfterSignMovesAhead(c: Config, h: Hook, r: nat)
    requires r in h.runs && h.runs[r].pc.AwaitSign?
    ensures MovesAhead(c, h, AfterSign(h, r), r)
  {
  }

  /** Every resumption that changes its run brings it ahead, so each attempt, and with it the run, ends. */
  lemma ResumeMovesAhead(c: Config, h: Hook, r: nat, s: Settlement)
    requires r in h.runs && RunWithinBounds(c, h.runs[r])
    ensures MovesAhead(c, h, Resume(c, h, r, s), r)
  {
    match h.runs[r].pc
    case AwaitPoll(hash, polls) => AfterPollMovesAhead(c, h, r, hash, polls, s);
    case PollDelay(_, _) =>
    case PollDelayOver(hash, polls, _) => PollTopMovesAhead(c, h, r, hash, polls);
    case PollSettled(Success(result)) => FinishMovesAhead(c, h, r, result, s.failure, s.callbackError);
    case PollSettled(Failure(e)) => CaughtMovesAhead(c, h, r, e);
    case RetryDelay =>
    case RetryDelayOver(_) => StartAttemptMovesAhead(c, h, r);
    case Hung =>
    case Done =>
    case pc =>
      if s.reply.Threw? {
        CaughtMovesAhead(c, h, r, s.reply.error);
      } else {
        RepliedMovesAhead(c, h, r, s);
      }
  }

  lemma RepliedMovesAhead(c: Config, h: Hook, r: nat, s: Settlement)
    requires r in h.runs && !s.reply.Threw?
    requires var pc := h.runs[r].pc; pc.AwaitAction? || pc.AwaitSimulate? || pc.AwaitSign? || pc.AwaitSend?
    ensures MovesAhead(c, h, Resume(c, h, r, s), r)
  {
    match h.runs[r].pc
    case AwaitAction => if s.reply.Returned? { AfterActionMovesAhead(c, h, r, s); }
    case AwaitSimulate => AfterSimulateMovesAhead(c, h, r);
    case AwaitSign => AfterSignMovesAhead(c, h, r);
    case AwaitSend => AfterSendMovesAhead(c, h, r, s);
    case _ =>
  }

  // --- How often a run can be resumed ---

  /** The most that a run can still move: through the attempts left, and through the awaits of each. */
  function Rank(c: Config, run: Run): int {
    (c.Attempts() - run.attempt) * (3 * c.Polls() + 7) + PcRank(c, run.pc)
  }

  lemma RankIsBounded(c: Config, run: Run)
    requires RunWithinBounds(c, run)
    ensures 0 <= PcRank(c, run.pc) <= 3 * c.Polls() + 6
    ensures 0 <= Rank(c, run) <= (c.Attempts() + 1) * (3 * c.Polls() + 7)
  {
    var d, left := 3 * c.Polls() + 7, c.Attempts() - run.attempt;
    MulMonotone(0, left, d);
    MulMonotone(left, c.Attempts(), d);
    assert (c.Attempts() + 1) * d == c.Attempts() * d + d;
  }

  lemma AheadLowersRank(c: Config, next: Run, run: Run)
    requires RunWithinBounds(c, next) && RunWithinBounds(c, run) && Ahead(c, next, run)
    ensures Rank(c, next) < Rank(c, run)
  {
    RankIsBounded(c, next);
    RankIsBounded(c, run);
    if run.attempt < next.attempt {
      var d := 3 * c.Polls() + 7;
      MulMonotone(c.Attempts() - next.attempt, c.Attempts() - run.attempt - 1, d);
      assert (c.Attempts() - run.attempt - 1) * d == (c.Attempts() - run.attempt) * d - d;
    }
  }

  /** The event resumes the run `r` and brings it somewhere. */
  predicate Resumes(c: Config, h: Hook, e: Event, r: nat) {
    e.Settle? && e.run == r && r in h.runs && Resume(c, h, r, e.settlement).runs != h.runs
  }

  /** Every resumption lowers the rank of its run, and nothing raises it. */
  lemma StepLowersRank(c: Config, h: Hook, e: Event, r: nat)
    requires Inv(c, h) && r in h.runs
    ensures var g := Step(c, h, e);
      && Inv(c, g) && r in g.runs
      && Rank(c, g.runs[r]) + (if Resumes(c, h, e, r) then 1 else 0) <= Rank(c, h.runs[r])
  {
    StepKeepsInv(c, h, e);
    match e
    case Settle(q, s) =>
      ResumeFrame(c, h, q, s);
      if q == r {
        ResumeLowersRank(c, h, r, s);
      }
    case _ => OtherStepKeepsRank(c, h, e, r);
  }

  lemma ResumeLowersRank(c: Config, h: Hook, r: nat, s: Settlement)
    requires Inv(c, h) && r in h.runs
    ensures var g := Resume(c, h, r, s);
      && r in g.runs
      && Rank(c, g.runs[r]) + (if g.runs != h.runs then 1 else 0) <= Rank(c, h.runs[r])
  {
    var g := Resume(c, h, r, s);
    ResumeKeepsInv(c, h, r, s);
    ResumeFrame(c, h, r, s);
    ResumeMovesAhead(c, h, r, s);
    if g.runs[r] == h.runs[r] {
      assert g.runs == h.runs;
    } else {
      AheadLowersRank(c, g.runs[r], h.runs[r]);
    }
  }

  /** A run's attempt, and where it waits, are changed by its own settlements, or its timer is cleared. */
  lemma OtherStepKeepsRun(c: Config, h: Hook, e: Event, r: nat)
    requires Inv(c, h) && r in h.runs && !e.Settle?
    ensures var g := Step(c, h, e);
      && r in g.runs && g.runs[r].attempt == h.runs[r].attempt && g.runs[r].polling == h.runs[r].polling
      && g.runs[r].pc == if Clears(h, e) && Waits(h, r) then Hung else h.runs[r].pc
  {
    match e
    case Submit(action, walletError) => SubmitKeepsOthers(c, h, action, walletError, r);
    case Retry(walletError, _) =>
      if h.lastAction.Some? {
        SubmitKeepsOthers(c, h, h.lastAction.value, walletError, r);
      }
    case Refetch(overrideHash) => RefetchKeepsOthers(c, h, overrideHash, r);
    case Mark(q, attempt, phase) => MarkKeepsPlaces(h, q, attempt, phase, r);
    case _ =>
  }

  lemma MarkKeepsPlaces(h: Hook, q: nat, attempt: nat, phase: Phase, r: nat)
    requires r in h.runs
    ensures var g := DoMark(h, q, attempt, phase);
      && r in g.runs && g.runs[r].attempt == h.runs[r].attempt
      && g.runs[r].pc == h.runs[r].pc && g.runs[r].polling == h.runs[r].polling
  {
  }

  lemma SubmitKeepsOthers(c: Config, h: Hook, action: Action, walletError: Option<Error>, r: nat)
    requires r in h.runs && r <= h.active
    ensures var g := DoSubmit(c, h, action, walletError);
      && r in g.runs && g.runs[r].attempt == h.runs[r].attempt && g.runs[r].polling == h.runs[r].polling
      && g.runs[r].pc == if Waits(h, r) then Hung else h.runs[r].pc
  {
    var g, q := Open(h, action), h.active + 1;
    assert r in g.runs && g.runs[r].attempt == h.runs[r].attempt && g.runs[r].polling == h.runs[r].polling;
    assert g.runs[r].pc == if Waits(h, r) then Hung else h.runs[r].pc;
    if !(c.requireWallet && walletError.Some?) {
      StartAttemptFrame(c, g, q);
    }
  }

  lemma RefetchKeepsOthers(c: Config, h: Hook, overrideHash: Option<string>, r: nat)
    requires r in h.runs && r <= h.active
    ensures r in DoRefetch(c, h, overrideHash).runs && DoRefetch(c, h, overrideHash).runs[r] == h.runs[r]
  {
    var target := if overrideHash.Some? then overrideHash else h.view.txHashRef;
    if target.Some? && target.value != "" {
      var polling := h.lastAction.Some? && h.lastAction.value.Stages? && h.lastAction.value.pollStatus;
      PollTopFrame(c, OpenRefetch(h, polling), h.active + 1, target.value, 0);
    }
  }

  lemma OtherStepKeepsRank(c: Config, h: Hook, e: Event, r: nat)
    requires Inv(c, h) && r in h.runs && !e.Settle?
    ensures r in Step(c, h, e).runs && Rank(c, Step(c, h, e).runs[r]) <= Rank(c, h.runs[r])
  {
    OtherStepKeepsRun(c, h, e, r);
    RankIsBounded(c, h.runs[r]);
  }

  function Resumptions(c: Config, h: Hook, events: seq<Event>, r: nat): nat {
    if events == [] then 0
    else
      var n := |events| - 1;
      Resumptions(c, h, events[..n], r) + if Resumes(c, RunAll(c, h, events[..n]), events[n], r) then 1 else 0
  }

  lemma {:induction false} ResumptionsSpendRank(c: Config, h: Hook, events: seq<Event>, r: nat)
    requires Inv(c, h) && r in h.runs
    ensures var g := RunAll(c, h, events);
      && Inv(c, g) && r in g.runs
      && Rank(c, g.runs[r]) + Resumptions(c, h, events, r) <= Rank(c, h.runs[r])
  {
    if events != [] {
      var n := |events| - 1;
      ResumptionsSpendRank(c, h, events[..n], r);
      StepLowersRank(c, RunAll(c, h, events[..n]), events[n], r);
    }
  }

  /** In no history is a run resumed more often than its attempts and polls allow. */
  lemma ResumptionsAreBounded(c: Config, before: seq<Event>, after: seq<Event>, r: nat)
    requires r in RunAll(c, INITIAL_HOOK, before).runs
    ensures Resumptions(c, RunAll(c, INITIAL_HOOK, before), after, r) <= (c.Attempts() + 1) * (3 * c.Polls() + 7)
  {
    var h := RunAll(c, INITIAL_HOOK, before);
    EveryInterleavingIsHonest(c, before);
    ResumptionsSpendRank(c, h, after, r);
    RankIsBounded(c, h.runs[r]);
    RankIsBounded(c, RunAll(c, h, after).runs[r]);
  }

  // --- Runs that are never resumed ---

  /** The run waits for a timer. */
  predicate Waits(h: Hook, r: nat)
    requires r in h.runs
  {
    h.runs[r].pc.RetryDelay? || h.runs[r].pc.PollDelay?
  }

  /** The event clears all timers: a submission, one more try of the last action, a reset or the unmounting. */
  predicate Clears(h: Hook, e: Event) {
    e.Submit? || (e.Retry? && h.lastAction.Some?) || e.Reset? || e.Unmount?
  }

  /** Somewhere in the history the timers were cleared while the run waited for one. */
  predicate ClearedWhileWaiting(c: Config, h: Hook, events: seq<Event>, r: nat) {
    events != [] &&
      var n := |events| - 1;
      var g := RunAll(c, h, events[..n]);
      ClearedWhileWaiting(c, h, events[..n], r) || (r in g.runs && Waits(g, r) && Clears(g, events[n]))
  }

  /** The run `r` is there, and does not hang. */
  predicate Runs(h: Hook, r: nat) {
    r in h.runs && h.runs[r].pc != Hung
  }

  lemma CaughtRuns(c: Config, h: Hook, r: nat, e: Error)
    requires r in h.runs
    ensures Runs(Caught(c, h, r, e), r)
  {
  }

  lemma FinishRuns(c: Config, h: Hook, r: nat, result: TxResult, failure: Error, callbackError: Option<Error>)
    requires r in h.runs
    ensures Runs(Finish(c, h, r, result, failure, callbackError), r)
  {
  }

  lemma PollTopRuns(c: Config, h: Hook, r: nat, hash: string, polls: nat)
    requires r in h.runs
    ensures Runs(PollTop(c, h, r, hash, polls), r)
  {
  }

  lemma StartAttemptRuns(c: Config, h: Hook, r: nat)
    requires r in h.runs
    ensures Runs(StartAttempt(c, h, r), r) && Runs(AfterSimulate(h, r), r) && Runs(AfterSign(h, r), r)
  {
  }

  lemma AfterSendRuns(c: Config, h: Hook, r: nat, s: Settlement)
    requires Runs(h, r)
    ensures Runs(AfterSend(c, h, r, s), r)
  {
    match s.reply
    case SentHash(hash) => PollTopRuns(c, SetHash(h, hash), r, hash, 0);
    case SentOutput(hash, success) =>
      var g := if hash != "" then SetHash(h, hash) else h;
      PollTopRuns(c, g, r, hash, 0);
      FinishRuns(c, g, r, TxResult(success.None? || success.value, hash), s.failure, s.callbackError);
    case _ =>
  }

  lemma AfterActionRuns(c: Config, h: Hook, r: nat, s: Settlement)
    requires Runs(h, r) && s.reply.Returned?
    ensures Runs(AfterAction(c, h, r, s), r)
  {
    var g := if h.runs[r].advanced then h else UpdateStatus(UpdateStatus(h, Signing, r), Submitting, r);
    FinishRuns(c, g, r, s.reply.result, s.failure, s.callbackError);
  }

  lemma AfterPollRuns(c: Config, h: Hook, r: nat, hash: string, polls: nat, s: Settlement)
    requires Runs(h, r)
    ensures Runs(AfterPoll(c, h, r, hash, polls, s), r)
  {
    PollTopRuns(c, h, r, hash, polls);
  }

  lemma ResumeNeverHangs(c: Config, h: Hook, r: nat, s: Settlement)
    requires Runs(h, r)
    ensures Runs(Resume(c, h, r, s), r)
  {
    var pc := h.runs[r].pc;
    if pc.AwaitPoll? {
      AfterPollRuns(c, h, r, pc.hash, pc.polls, s);
    } else if pc.PollDelayOver? {
      PollTopRuns(c, h, r, pc.hash, pc.polls);
    } else if pc.PollSettled? {
      match pc.outcome
      case Success(result) => FinishRuns(c, h, r, result, s.failure, s.callbackError);
      case Failure(e) => CaughtRuns(c, h, r, e);
    } else if pc.RetryDelayOver? {
      StartAttemptRuns(c, h, r);
    } else if AwaitsStage(pc) {
      StageRuns(c, h, r, s);
    }
  }

  lemma StageRuns(c: Config, h: Hook, r: nat, s: Settlement)
    requires Runs(h, r) && AwaitsStage(h.runs[r].pc)
    ensures Runs(Resume(c, h, r, s), r)
  {
    if s.reply.Threw? {
      CaughtRuns(c, h, r, s.reply.error);
    } else {
      StartAttemptRuns(c, h, r);
      AfterSendRuns(c, h, r, s);
      if s.reply.Returned? {
        AfterActionRuns(c, h, r, s);
      }
    }
  }

  lemma StepHangsIff(c: Config, h: Hook, e: Event, r: nat)
    requires Inv(c, h) && r in h.runs
    ensures var g := Step(c, h, e);
      r in g.runs && (g.runs[r].pc == Hung <==> h.runs[r].pc == Hung || (Waits(h, r) && Clears(h, e)))
  {
    if e.Settle? {
      ResumeFrame(c, h, e.run, e.settlement);
      if e.run == r && h.runs[r].pc != Hung {
        ResumeNeverHangs(c, h, r, e.settlement);
      }
    } else {
      OtherStepKeepsRun(c, h, e, r);
    }
  }

  /**
   A run hangs, so that its promise never settles, exactly if the timers were cleared
   while it waited for one: by a submission, a retry, a reset or the unmounting.
   */
  lemma {:induction false} HangsIffCleared(c: Config, h: Hook, events: seq<Event>, r: nat)
    requires Inv(c, h) && r in h.runs && h.runs[r].pc != Hung
    ensures var g := RunAll(c, h, events);
      Inv(c, g) && r in g.runs && (g.runs[r].pc == Hung <==> ClearedWhileWaiting(c, h, events, r))
  {
    if events != [] {
      var n := |events| - 1;
      HangsIffCleared(c, h, events[..n], r);
      StepHangsIff(c, RunAll(c, h, events[..n]), events[n], r);
      StepKeepsInv(c, RunAll(c, h, events[..n]), events[n]);
    }
  }

  /** Once it hangs, a run is never resumed. */
  lemma HungIsFinal(c: Config, h: Hook, events: seq<Event>, r: nat, s: Settlement)
    requires Inv(c, h) && r in h.runs && h.runs[r].pc == Hung
    ensures var g := RunAll(c, h, events);
      r in g.runs && g.runs[r].pc == Hung && Resume(c, g, r, s) == g
  {
    StaysHung(c, h, events, r);
  }

  lemma {:induction false} StaysHung(c: Config, h: Hook, events: seq<Event>, r: nat)
    requires Inv(c, h) && r in h.runs && h.runs[r].pc == Hung
    ensures var g := RunAll(c, h, events); Inv(c, g) && r in g.runs && g.runs[r].pc == Hung
  {
    if events != [] {
      var n := |events| - 1;
      StaysHung(c, h, events[..n], r);
      StepHangsIff(c, RunAll(c, h, events[..n]), events[n], r);
      StepKeepsInv(c, RunAll(c, h, events[..n]), events[n]);
    }
  }

  // --- The latest run ---

  /** What a settlement makes of the attempt that it reaches. */
  datatype Verdict = GoesOn | Fails(error: Error) | Succeeds(result: TxResult)

  /** A result that is no success fails, and so does a success whose callback throws. */
  function Judge(result: TxResult, s: Settlement): Verdict {
    if !result.success then Fails(s.failure)
    else if s.callbackError.Some? then Fails(s.callbackError.value)
    else Succeeds(result)
  }

  function VerdictOf(run: Run, s: Settlement): Verdict {
    match (run.pc, s.reply)
    case (PollSettled(Failure(e)), _) => Fails(e)
    case (PollSettled(Success(result)), _) => Judge(result, s)
    case (AwaitAction, Threw(e)) => Fails(e)
    case (AwaitSimulate, Threw(e)) => Fails(e)
    case (AwaitSign, Threw(e)) => Fails(e)
    case (AwaitSend, Threw(e)) => Fails(e)
    case (AwaitAction, Returned(result)) => Judge(result, s)
    case (AwaitSend, SentOutput(hash, success)) =>
      if run.polling && hash != "" && success.None? then GoesOn
      else Judge(TxResult(success.None? || success.value, hash), s)
    case _ => GoesOn
  }

  /** The run `r` of a submission is the latest one, and its retries are counted. */
  predicate Latest(c: Config, h: Hook, r: nat) {
    && h.mounted && h.active == r && r in h.runs && h.runs[r].action.Some?
    && 1 <= h.runs[r].attempt <= c.Attempts()
    && h.view.retryCount == h.runs[r].attempt - 1
  }

  /** A run ends with a success, or with an error that is terminal or has used up the attempts. */
  predicate EndedWell(c: Config, v: View, attempt: nat, failures: nat) {
    || (failures == attempt - 1 && v.data.Some? && v.data.value.success && v.error.None?)
    || (failures == attempt && v.error.Some? && (v.error.value.terminal || attempt == c.Attempts()))
  }

  /** So many attempts of the latest run have failed; each failure but an ending one leads to one more attempt. */
  predicate Tracks(c: Config, h: Hook, r: nat, failures: nat) {
    && Latest(c, h, r)
    && var attempt := h.runs[r].attempt;
       match h.runs[r].pc
       case Hung => false
       case RetryDelay => failures == attempt < c.Attempts()
       case RetryDelayOver(ok) => ok && failures == attempt < c.Attempts()
       case PollDelayOver(_, _, ok) => ok && failures == attempt - 1
       case Done => EndedWell(c, h.view, attempt, failures)
       case _ => failures == attempt - 1
  }

  lemma CaughtTracks(c: Config, h: Hook, r: nat, e: Error)
    requires Latest(c, h, r)
    ensures Tracks(c, Caught(c, h, r, e), r, h.runs[r].attempt)
  {
  }

  lemma FinishTracks(c: Config, h: Hook, r: nat, result: TxResult, s: Settlement)
    requires Latest(c, h, r)
    ensures Tracks(c, Finish(c, h, r, result, s.failure, s.callbackError), r,
                   h.runs[r].attempt - if Judge(result, s).Fails? then 0 else 1)
  {
    var g := if result.hash != "" || h.runs[r].action.None? then SetHash(h, result.hash) else h;
    if !result.success {
      CaughtTracks(c, g, r, s.failure);
    } else {
      SuccessTracks(c, g, r, result, s);
    }
  }

  lemma SuccessTracks(c: Config, g: Hook, r: nat, result: TxResult, s: Settlement)
    requires Latest(c, g, r) && result.success
    ensures var k := UpdateStatus(g.(view := g.view.(data := Some(result), error := None)), Confirmed, r);
      && Latest(c, k, r) && k.runs == g.runs
      && (s.callbackError.None? ==> Tracks(c, Suspend(k, r, Done), r, g.runs[r].attempt - 1))
      && (s.callbackError.Some? ==> Tracks(c, Caught(c, k, r, s.callbackError.value), r, g.runs[r].attempt))
  {
    var k := UpdateStatus(g.(view := g.view.(data := Some(result), error := None)), Confirmed, r);
    if s.callbackError.Some? {
      CaughtTracks(c, k, r, s.callbackError.value);
    }
  }

  lemma PollTopTracks(c: Config, h: Hook, r: nat, hash: string, polls: nat)
    requires Latest(c, h, r)
    ensures Tracks(c, PollTop(c, h, r, hash, polls), r, h.runs[r].attempt - 1)
  {
  }

  lemma AfterPollTracks(c: Config, h: Hook, r: nat, hash: string, polls: nat, s: Settlement)
    requires Latest(c, h, r) && Tracks(c, h, r, h.runs[r].attempt - 1) && h.runs[r].pc == AwaitPoll(hash, polls)
    ensures Tracks(c, AfterPoll(c, h, r, hash, polls, s), r, h.runs[r].attempt - 1)
  {
    PollTopTracks(c, h, r, hash, polls);
  }

  lemma StartAttemptTracks(c: Config, h: Hook, r: nat)
    requires Latest(c, h, r) && h.runs[r].attempt < c.Attempts()
    ensures Tracks(c, StartAttempt(c, h, r), r, h.runs[r].attempt)
  {
  }

  lemma AfterSimulateTracks(c: Config, h: Hook, r: nat)
    requires Latest(c, h, r)
    ensures Tracks(c, AfterSimulate(h, r), r, h.runs[r].attempt - 1)
    ensures Tracks(c, AfterSign(h, r), r, h.runs[r].attempt - 1)
  {
  }

  lemma AfterSendTracks(c: Config, h: Hook, r: nat, s: Settlement)
    requires Latest(c, h, r) && Tracks(c, h, r, h.runs[r].attempt - 1) && h.runs[r].pc.AwaitSend? && !s.reply.Threw?
    ensures Tracks(c, AfterSend(c, h, r, s), r,
                   h.runs[r].attempt - if VerdictOf(h.runs[r], s).Fails? then 0 else 1)
  {
    match s.reply
    case SentHash(hash) => PollTopTracks(c, SetHash(h, hash), r, hash, 0);
    case SentOutput(_, _) => SentOutputTracks(c, h, r, s);
    case _ =>
  }

  lemma SentOutputTracks(c: Config, h: Hook, r: nat, s: Settlement)
    requires Latest(c, h, r) && h.runs[r].pc.AwaitSend? && s.reply.SentOutput?
    ensures Tracks(c, AfterSend(c, h, r, s), r,
                   h.runs[r].attempt - if VerdictOf(h.runs[r], s).Fails? then 0 else 1)
  {
    var hash := s.reply.hash;
    var g := if hash != "" then SetHash(h, hash) else h;
    assert Latest(c, g, r) && g.runs == h.runs;
    OutputTracks(c, g, r, hash, s.reply.success, s);
  }

  lemma OutputTracks(c: Config, g: Hook, r: nat, hash: string, success: Option<bool>, s: Settlement)
    requires Latest(c, g, r)
    ensures var result := TxResult(success.None? || success.value, hash);
      if g.runs[r].polling && hash != "" && success.None? then
        Tracks(c, PollTop(c, g, r, hash, 0), r, g.runs[r].attempt - 1)
      else
        Tracks(c, Finish(c, g, r, result, s.failure, s.callbackError), r,
               g.runs[r].attempt - if Judge(result, s).Fails? then 0 else 1)
  {
    if g.runs[r].polling && hash != "" && success.None? {
      PollTopTracks(c, g, r, hash, 0);
    } else {
      FinishTracks(c, g, r, TxResult(success.None? || success.value, hash), s);
    }
  }

  lemma AfterActionTracks(c: Config, h: Hook, r: nat, s: Settlement)
    requires Latest(c, h, r) && h.runs[r].pc.AwaitAction? && s.reply.Returned?
    ensures Tracks(c, AfterAction(c, h, r, s), r,
                   h.runs[r].attempt - if VerdictOf(h.runs[r], s).Fails? then 0 else 1)
  {
    var g := if h.runs[r].advanced then h else UpdateStatus(UpdateStatus(h, Signing, r), Submitting, r);
    FinishTracks(c, g, r, s.reply.result, s);
  }

  lemma ResumeTracks(c: Config, h: Hook, r: nat, s: Settlement, failures: nat)
    requires Tracks(c, h, r, failures)
    ensures Tracks(c, Resume(c, h, r, s), r, failures + if VerdictOf(h.runs[r], s).Fails? then 1 else 0)
  {
    match h.runs[r].pc
    case AwaitPoll(hash, polls) => AfterPollTracks(c, h, r, hash, polls, s);
    case PollDelayOver(hash, polls, _) => PollTopTracks(c, h, r, hash, polls);
    case PollSettled(Success(result)) => FinishTracks(c, h, r, result, s);
    case PollSettled(Failure(e)) => CaughtTracks(c, h, r, e);
    case RetryDelayOver(_) => StartAttemptTracks(c, h, r);
    case AwaitAction => WaitingTracks(c, h, r, s);
    case AwaitSimulate => WaitingTracks(c, h, r, s);
    case AwaitSign => WaitingTracks(c, h, r, s);
    case AwaitSend => WaitingTracks(c, h, r, s);
    case _ =>
  }

  /** The run waits for its action or for one of its stages. */
  predicate AwaitsStage(pc: Pc) {
    pc.AwaitAction? || pc.AwaitSimulate? || pc.AwaitSign? || pc.AwaitSend?
  }

  lemma WaitingTracks(c: Config, h: Hook, r: nat, s: Settlement)
    requires Latest(c, h, r) && Tracks(c, h, r, h.runs[r].attempt - 1) && AwaitsStage(h.runs[r].pc)
    ensures Tracks(c, Resume(c, h, r, s), r,
                   h.runs[r].attempt - if VerdictOf(h.runs[r], s).Fails? then 0 else 1)
  {
    if s.reply.Threw? {
      CaughtTracks(c, h, r, s.reply.error);
    } else {
      match h.runs[r].pc
      case AwaitAction => if s.reply.Returned? { AfterActionTracks(c, h, r, s); }
      case AwaitSend => AfterSendTracks(c, h, r, s);
      case _ => AfterSimulateTracks(c, h, r);
    }
  }

  /** Marks, the run's own ones too, leave its attempts alone. */
  lemma MarkTracks(c: Config, h: Hook, r: nat, e: Event, failures: nat)
    requires Tracks(c, h, r, failures) && e.Mark?
    ensures Tracks(c, Step(c, h, e), r, failures)
  {
  }

  /** Settlements of other runs cannot disturb the latest one. */
  lemma OthersDoNotDisturb(c: Config, h: Hook, e: Event, r: nat, failures: nat)
    requires Tracks(c, h, r, failures) && e.Settle? && e.run != r
    ensures Tracks(c, Step(c, h, e), r, failures)
  {
    SupersededRunWritesNothing(c, h, e, e.run);
    ResumeFrame(c, h, e.run, e.settlement);
  }

  /** Nothing is submitted, retried, refetched, reset or unmounted: runs only settle and mark. */
  predicate Undisturbed(events: seq<Event>) {
    forall i :: 0 <= i < |events| ==> events[i].Settle? || events[i].Mark?
  }

  /** How many attempts of the run `r` have failed. */
  function Failures(c: Config, h: Hook, events: seq<Event>, r: nat): nat {
    if events == [] then 0
    else
      var n := |events| - 1;
      var g, e := RunAll(c, h, events[..n]), events[n];
      Failures(c, h, events[..n], r) + if IsFailure(g, e, r) then 1 else 0
  }

  predicate IsFailure(h: Hook, e: Event, r: nat) {
    e.Settle? && e.run == r && r in h.runs && VerdictOf(h.runs[r], e.settlement).Fails?
  }

  lemma StepTracks(c: Config, h: Hook, e: Event, r: nat, failures: nat)
    requires Tracks(c, h, r, failures) && (e.Settle? || e.Mark?)
    ensures Tracks(c, Step(c, h, e), r, failures + if IsFailure(h, e, r) then 1 else 0)
  {
    if e.Mark? {
      MarkTracks(c, h, r, e, failures);
    } else if e.run == r {
      ResumeTracks(c, h, r, e.settlement, failures);
    } else {
      OthersDoNotDisturb(c, h, e, r, failures);
    }
  }

  lemma SubmitTracks(c: Config, h: Hook, action: Action, walletError: Option<Error>)
    requires h.mounted && !(c.requireWallet && walletError.Some?)
    ensures Tracks(c, DoSubmit(c, h, action, walletError), h.active + 1, 0)
  {
  }

  /**
   Whatever the action is, and whatever its own marks and other runs do in between: the
   latest run goes on to exactly one more attempt after each failure that is not terminal
   while attempts are left, and ends only with a success or with another failure.
   */
  lemma {:induction false} LatestRunRetries(c: Config, h: Hook, action: Action, walletError: Option<Error>,
                                            events: seq<Event>)
    requires h.mounted && !(c.requireWallet && walletError.Some?) && Undisturbed(events)
    ensures var h0, r := DoSubmit(c, h, action, walletError), h.active + 1;
      Tracks(c, RunAll(c, h0, events), r, Failures(c, h0, events, r))
  {
    var h0, r := DoSubmit(c, h, action, walletError), h.active + 1;
    if events == [] {
      SubmitTracks(c, h, action, walletError);
    } else {
      var n := |events| - 1;
      LatestRunRetries(c, h, action, walletError, events[..n]);
      StepTracks(c, RunAll(c, h0, events[..n]), events[n], r, Failures(c, h0, events[..n], r));
    }
  }

  /** What is shown right after a settlement is what it makes of the attempt. */
  predicate ShowsVerdict(c: Config, before: Hook, after: Hook, r: nat, verdict: Verdict)
    requires r in before.runs && r in after.runs
  {
    match verdict
    case Succeeds(result) =>
      && after.runs[r].pc == Done && after.view.status == Confirmed
      && after.view.data == Some(result) && after.view.error.None?
      && (result.hash != "" ==> after.view.txHash == Some(result.hash))
    case Fails(e) =>
      if e.terminal || before.runs[r].attempt == c.Attempts() then
        after.runs[r].pc == Done && after.view.status == Failed && after.view.error == Some(e)
      else
        after.runs[r].pc == RetryDelay
    case GoesOn => after.runs[r].pc != Done || before.runs[r].pc == Done
  }

  lemma CaughtShows(c: Config, h: Hook, r: nat, e: Error)
    requires Latest(c, h, r)
    ensures ShowsVerdict(c, h, Caught(c, h, r, e), r, Fails(e))
  {
  }

  lemma FinishShows(c: Config, h: Hook, r: nat, result: TxResult, s: Settlement)
    requires Latest(c, h, r)
    ensures var g := Finish(c, h, r, result, s.failure, s.callbackError);
      r in g.runs && ShowsVerdict(c, h, g, r, Judge(result, s))
  {
  }

  lemma AfterSendShows(c: Config, h: Hook, r: nat, s: Settlement)
    requires Latest(c, h, r) && h.runs[r].pc.AwaitSend? && !s.reply.Threw?
    ensures var g := AfterSend(c, h, r, s);
      r in g.runs && ShowsVerdict(c, h, g, r, VerdictOf(h.runs[r], s))
  {
    if s.reply.SentOutput? {
      var g := if s.reply.hash != "" then SetHash(h, s.reply.hash) else h;
      FinishShows(c, g, r, TxResult(s.reply.success.None? || s.reply.success.value, s.reply.hash), s);
    }
  }

  lemma AfterActionShows(c: Config, h: Hook, r: nat, s: Settlement)
    requires Latest(c, h, r) && h.runs[r].pc.AwaitAction? && s.reply.Returned?
    ensures var g := AfterAction(c, h, r, s);
      r in g.runs && ShowsVerdict(c, h, g, r, VerdictOf(h.runs[r], s))
  {
    var g := if h.runs[r].advanced then h else UpdateStatus(UpdateStatus(h, Signing, r), Submitting, r);
    FinishShows(c, g, r, s.reply.result, s);
  }

  lemma WaitingShows(c: Config, h: Hook, r: nat, s: Settlement)
    requires Latest(c, h, r) && AwaitsStage(h.runs[r].pc)
    ensures var g := Resume(c, h, r, s);
      r in g.runs && ShowsVerdict(c, h, g, r, VerdictOf(h.runs[r], s))
  {
    if s.reply.Threw? {
      CaughtShows(c, h, r, s.reply.error);
    } else {
      match h.runs[r].pc
      case AwaitAction => if s.reply.Returned? { AfterActionShows(c, h, r, s); }
      case AwaitSend => AfterSendShows(c, h, r, s);
      case _ =>
    }
  }

  lemma ResumeShows(c: Config, h: Hook, r: nat, s: Settlement, failures: nat)
    requires Tracks(c, h, r, failures)
    ensures var g := Resume(c, h, r, s);
      r in g.runs && ShowsVerdict(c, h, g, r, VerdictOf(h.runs[r], s))
  {
    var pc := h.runs[r].pc;
    if pc.PollSettled? {
      match pc.outcome
      case Success(result) => FinishShows(c, h, r, result, s);
      case Failure(e) => CaughtShows(c, h, r, e);
    } else if AwaitsStage(pc) {
      WaitingShows(c, h, r, s);
    }
  }

  /**
   A submission that nothing supersedes ends as its last attempt does: at every point of
   every run, a settlement that makes the attempt succeed is shown as confirmed with its
   data; one that makes it fail is shown as failed with its error if that is terminal or
   the attempts are used up, and otherwise is retried; no other settlement ends the run.
   */
  lemma SubmissionEndsAsLastAttempt(c: Config, h: Hook, action: Action, walletError: Option<Error>,
                                    events: seq<Event>, s: Settlement)
    requires h.mounted && !(c.requireWallet && walletError.Some?) && Undisturbed(events)
    ensures var h0, r := DoSubmit(c, h, action, walletError), h.active + 1;
      var g := RunAll(c, h0, events);
      var k := Step(c, g, Settle(r, s));
      && r in g.runs && r in k.runs
      && ShowsVerdict(c, g, k, r, VerdictOf(g.runs[r], s))
      && (VerdictOf(g.runs[r], s).Succeeds? ==> k.view.retryCount == Failures(c, h0, events, r))
  {
    var h0, r := DoSubmit(c, h, action, walletError), h.active + 1;
    LatestRunRetries(c, h, action, walletError, events);
    ResumeTracks(c, RunAll(c, h0, events), r, s, Failures(c, h0, events, r));
    ResumeShows(c, RunAll(c, h0, events), r, s, Failures(c, h0, events, r));
  }

  // --- The stages of the latest run ---

  function Ended(reply: Reply, failure: Error): Settlement {
    Settlement(reply, failure, None)
  }

  /** The run waits in `pc`, with nothing in its way; a refetch may be such a run too. */
  predicate At(h: Hook, r: nat, pc: Pc, status: Status) {
    h.mounted && h.active == r && r in h.runs && h.runs[r].pc == pc && h.view.status == status
  }

  /** The same, for the run of a staged submission. */
  predicate AtStage(h: Hook, r: nat, pc: Pc, status: Status) {
    At(h, r, pc, status) && h.runs[r].action.Some? && h.runs[r].action.value.Stages?
  }

  /** The stages before sending come in order, and those that the action lacks are passed over. */
  lemma StagesComeInOrder(c: Config, h: Hook, action: Action, walletError: Option<Error>, e: Error)
    requires h.mounted && !(c.requireWallet && walletError.Some?) && action.Stages?
    ensures var r := h.active + 1;
      var g0 := DoSubmit(c, h, action, walletError);
      var g1 := if action.simulate then Resume(c, g0, r, Ended(Ready, e)) else g0;
      var g2 := if action.sign then Resume(c, g1, r, Ended(Ready, e)) else g1;
      && (action.simulate ==> AtStage(g0, r, AwaitSimulate, Simulating))
      && (action.sign ==> AtStage(g1, r, AwaitSign, Signing))
      && AtStage(g2, r, AwaitSend, Submitting) && g2.runs[r].polling == action.pollStatus
  {
  }

  /** n polls that find the transaction pending, each with its delay. */
  function PendingPolls(c: Config, h: Hook, r: nat, n: nat, e: Error): Hook
    decreases n
  {
    if n == 0 then h
    else
      var before := PendingPolls(c, h, r, n - 1, e);
      var polled := Resume(c, before, r, Ended(Polled(Pending), e));
      Resume(c, Resume(c, polled, r, Ended(Ready, e)), r, Ended(Ready, e))
  }

  lemma {:induction false} PendingIsPolledAgain(c: Config, h: Hook, r: nat, hash: string, n: nat, e: Error)
    requires At(h, r, AwaitPoll(hash, 1), Submitting) && n < c.Polls()
    requires h.runs[r].polling || c.clientPolls
    ensures var g := PendingPolls(c, h, r, n, e);
      && At(g, r, AwaitPoll(hash, n + 1), Submitting) && g.view.txHash == h.view.txHash
      && g.runs[r].polling == h.runs[r].polling
    decreases n
  {
    if n > 0 {
      PendingIsPolledAgain(c, h, r, hash, n - 1, e);
      PendingPollGoesOn(c, PendingPolls(c, h, r, n - 1, e), r, hash, n, e);
    }
  }

  lemma PendingPollGoesOn(c: Config, h: Hook, r: nat, hash: string, polls: nat, e: Error)
    requires At(h, r, AwaitPoll(hash, polls), Submitting) && polls < c.Polls()
    requires h.runs[r].polling || c.clientPolls
    ensures var polled := Resume(c, h, r, Ended(Polled(Pending), e));
      var g := Resume(c, Resume(c, polled, r, Ended(Ready, e)), r, Ended(Ready, e));
      && At(g, r, AwaitPoll(hash, polls + 1), Submitting) && g.view.txHash == h.view.txHash
      && g.runs[r].polling == h.runs[r].polling
  {
  }

  lemma FoundHashIsConfirmed(c: Config, h: Hook, r: nat, hash: string, polls: nat, e: Error)
    requires At(h, r, AwaitPoll(hash, polls), Submitting)
    ensures var g := Resume(c, Resume(c, h, r, Ended(Polled(Succeeded), e)), r, Ended(Ready, e));
      g.view.status == Confirmed && g.view.data == Some(TxResult(true, hash))
  {
  }

  /** The reply gives a hash to poll for: as a string, or in an output that leaves the success open. */
  predicate GivesHash(run: Run, reply: Reply, hash: string) {
    || reply == SentHash(hash)
    || (reply == SentOutput(hash, None) && run.polling && hash != "")
  }

  lemma SentHashIsPolledFor(c: Config, h: Hook, r: nat, reply: Reply, hash: string, e: Error)
    requires AtStage(h, r, AwaitSend, Submitting) && GivesHash(h.runs[r], reply, hash)
    ensures var sent := Resume(c, h, r, Ended(reply, e));
      && sent.view.txHash == Some(hash)
      && (if h.runs[r].polling || c.clientPolls then
            At(sent, r, AwaitPoll(hash, 1), Submitting) && sent.runs[r].polling == h.runs[r].polling
          else
            At(sent, r, PollSettled(Success(TxResult(true, hash))), Submitting))
  {
  }

  lemma TakenAsFound(c: Config, h: Hook, r: nat, hash: string, e: Error)
    requires At(h, r, PollSettled(Success(TxResult(true, hash))), Submitting)
    ensures var g := Resume(c, h, r, Ended(Ready, e));
      g.view.status == Confirmed && g.view.data == Some(TxResult(true, hash))
  {
  }

  /**
   A hash that was sent is polled for as long as it is pending and polls are left, and is
   confirmed when a poll finds it; if nothing can poll, it is confirmed at once.
   */
  lemma SentHashIsConfirmed(c: Config, h: Hook, r: nat, reply: Reply, hash: string, n: nat, e: Error)
    requires AtStage(h, r, AwaitSend, Submitting) && GivesHash(h.runs[r], reply, hash)
    requires n == 0 || n < c.maxPollAttempts
    ensures var sent := Resume(c, h, r, Ended(reply, e));
      var found := if h.runs[r].polling || c.clientPolls
        then Resume(c, PendingPolls(c, sent, r, n, e), r, Ended(Polled(Succeeded), e)) else sent;
      var g := Resume(c, found, r, Ended(Ready, e));
      && sent.view.txHash == Some(hash)
      && g.view.status == Confirmed && g.view.data == Some(TxResult(true, hash))
  {
    var sent := Resume(c, h, r, Ended(reply, e));
    SentHashIsPolledFor(c, h, r, reply, hash, e);
    if h.runs[r].polling || c.clientPolls {
      PendingIsPolledAgain(c, sent, r, hash, n, e);
      FoundHashIsConfirmed(c, PendingPolls(c, sent, r, n, e), r, hash, n + 1, e);
    } else {
      TakenAsFound(c, sent, r, hash, e);
    }
  }

  /** The run of a staged submission up to where it sends: each stage that there is gets ready. */
  function UpToSend(c: Config, h: Hook, action: Action, walletError: Option<Error>, e: Error): Hook
    requires action.Stages?
  {
    var r, g0 := h.active + 1, DoSubmit(c, h, action, walletError);
    var g1 := if action.simulate then Resume(c, g0, r, Ended(Ready, e)) else g0;
    if action.sign then Resume(c, g1, r, Ended(Ready, e)) else g1
  }

  /** From the call of submit to the confirmation, for every combination of stages and any number of pending polls. */
  lemma StagedSubmissionIsConfirmed(c: Config, h: Hook, action: Action, walletError: Option<Error>,
                                    hash: string, n: nat, e: Error)
    requires h.mounted && !(c.requireWallet && walletError.Some?) && action.Stages?
    requires n == 0 || n < c.maxPollAttempts
    ensures var r, ready := h.active + 1, UpToSend(c, h, action, walletError, e);
      var sent := Resume(c, ready, r, Ended(SentHash(hash), e));
      var found := if action.pollStatus || c.clientPolls
        then Resume(c, PendingPolls(c, sent, r, n, e), r, Ended(Polled(Succeeded), e)) else sent;
      var g := Resume(c, found, r, Ended(Ready, e));
      && ready.view.status == Submitting && sent.view.txHash == Some(hash)
      && g.view.status == Confirmed && g.view.data == Some(TxResult(true, hash))
  {
    var ready := UpToSend(c, h, action, walletError, e);
    var r := h.active + 1;
    assert AtStage(ready, r, AwaitSend, Submitting) && ready.runs[r].polling == action.pollStatus by {
      StagesComeInOrder(c, h, action, walletError, e);
    }
    SentHashIsConfirmed(c, ready, r, SentHash(hash), hash, n, e);
  }

  // --- What polling comes to ---

  /** How a poll was answered: for which hash, as which one of its attempt. */
  datatype Answer = Answer(hash: string, polls: nat, settlement: Settlement)

  /** The answer to the latest poll of the run `r` in a history. */
  function LastAnswer(c: Config, h: Hook, events: seq<Event>, r: nat): Option<Answer> {
    if events == [] then None
    else
      var n := |events| - 1;
      var g := RunAll(c, h, events[..n]);
      if IsAnswer(g, events[n], r) then
        Some(Answer(g.runs[r].pc.hash, g.runs[r].pc.polls, events[n].settlement))
      else LastAnswer(c, h, events[..n], r)
  }

  predicate IsAnswer(h: Hook, e: Event, r: nat) {
    && e.Settle? && e.run == r && r in h.runs && h.runs[r].pc.AwaitPoll?
    && (e.settlement.reply.Threw? || e.settlement.reply.Polled?)
  }

  predicate PollsLedger(c: Config, run: Run) {
    run.polling || c.clientPolls
  }

  predicate Found(a: Option<Answer>) {
    a.Some? && a.value.settlement.reply == Polled(Succeeded)
  }

  /** The answer ends the polling with the error `e`. */
  predicate FailsWith(c: Config, a: Answer, e: Error) {
    match a.settlement.reply
    case Threw(thrown) => e == thrown
    case Polled(Rejected) => e == a.settlement.failure
    case Polled(Pending) =>
      (a.polls == 1 || a.polls == c.maxPollAttempts) && c.maxPollAttempts <= a.polls && e == TIMED_OUT
    case _ => false
  }

  /** The polling of a run has come to what the latest answer says; one that may not write may have been cancelled. */
  predicate SettledBy(c: Config, outcome: Result<TxResult, Error>, a: Option<Answer>, may: bool) {
    match outcome
    case Success(result) => Found(a) && result == TxResult(true, a.value.hash)
    case Failure(e) => !Found(a) && ((!may && e == CANCELLED) || (a.Some? && FailsWith(c, a.value, e)))
  }

  predicate Pends(a: Option<Answer>, hash: string, polls: nat) {
    && a.Some? && a.value.hash == hash && a.value.polls == polls
    && a.value.settlement.reply == Polled(Pending)
  }

  /** Where a run is in its polling is what the latest answer has made of it. */
  predicate PollsInStep(c: Config, run: Run, a: Option<Answer>, may: bool) {
    match run.pc
    case AwaitPoll(hash, polls) => PollsLedger(c, run) && (polls <= 1 || Pends(a, hash, polls - 1))
    case PollDelay(hash, polls) => 1 <= polls && PollsLedger(c, run) && Pends(a, hash, polls)
    case PollDelayOver(hash, polls, ok) =>
      1 <= polls && PollsLedger(c, run) && Pends(a, hash, polls) && (may ==> ok)
    case PollSettled(outcome) => PollsLedger(c, run) ==> SettledBy(c, outcome, a, may)
    case _ => true
  }

  predicate InStepAt(c: Config, h: Hook, r: nat, a: Option<Answer>) {
    if r in h.runs then PollsInStep(c, h.runs[r], a, MayWrite(h, r)) else a.None?
  }

  /** The run is not polling. */
  predicate IsElsewhere(pc: Pc) {
    !pc.AwaitPoll? && !pc.PollDelay? && !pc.PollDelayOver? && !pc.PollSettled?
  }

  lemma PollTopInStep(c: Config, h: Hook, r: nat, hash: string, polls: nat, a: Option<Answer>)
    requires r in h.runs && polls <= c.Polls()
    requires if polls == 0 then MayWrite(h, r) || a.None? else PollsLedger(c, h.runs[r]) && Pends(a, hash, polls)
    ensures InStepAt(c, PollTop(c, h, r, hash, polls), r, a)
  {
  }

  lemma CaughtIsElsewhere(c: Config, h: Hook, r: nat, e: Error)
    requires r in h.runs
    ensures r in Caught(c, h, r, e).runs && IsElsewhere(Caught(c, h, r, e).runs[r].pc)
  {
  }

  lemma FinishIsElsewhere(c: Config, h: Hook, r: nat, result: TxResult, failure: Error, callbackError: Option<Error>)
    requires r in h.runs
    ensures var g := Finish(c, h, r, result, failure, callbackError);
      r in g.runs && IsElsewhere(g.runs[r].pc)
  {
  }

  lemma StartAttemptIsElsewhere(c: Config, h: Hook, r: nat)
    requires r in h.runs
    ensures r in StartAttempt(c, h, r).runs && IsElsewhere(StartAttempt(c, h, r).runs[r].pc)
    ensures r in AfterSimulate(h, r).runs && IsElsewhere(AfterSimulate(h, r).runs[r].pc)
    ensures r in AfterSign(h, r).runs && IsElsewhere(AfterSign(h, r).runs[r].pc)
  {
  }

  lemma AfterSendInStep(c: Config, h: Hook, r: nat, s: Settlement, a: Option<Answer>)
    requires r in h.runs && h.runs[r].pc.AwaitSend?
    ensures InStepAt(c, AfterSend(c, h, r, s), r, a)
  {
    if MayWrite(h, r) {
      match s.reply
      case SentHash(hash) => PollTopInStep(c, SetHash(h, hash), r, hash, 0, a);
      case SentOutput(hash, success) =>
        var g := if hash != "" then SetHash(h, hash) else h;
        PollTopInStep(c, g, r, hash, 0, a);
        FinishIsElsewhere(c, g, r, TxResult(success.None? || success.value, hash), s.failure, s.callbackError);
      case _ =>
    }
  }

  lemma AfterActionInStep(c: Config, h: Hook, r: nat, s: Settlement, a: Option<Answer>)
    requires r in h.runs && s.reply.Returned?
    ensures InStepAt(c, AfterAction(c, h, r, s), r, a)
  {
    if MayWrite(h, r) {
      var g := if h.runs[r].advanced then h else UpdateStatus(UpdateStatus(h, Signing, r), Submitting, r);
      FinishIsElsewhere(c, g, r, s.reply.result, s.failure, s.callbackError);
    }
  }

  lemma StageInStep(c: Config, h: Hook, r: nat, s: Settlement, a: Option<Answer>)
    requires r in h.runs && AwaitsStage(h.runs[r].pc)
    ensures InStepAt(c, Resume(c, h, r, s), r, a)
  {
    if s.reply.Threw? {
      CaughtIsElsewhere(c, h, r, s.reply.error);
    } else {
      match h.runs[r].pc
      case AwaitAction => if s.reply.Returned? { AfterActionInStep(c, h, r, s, a); }
      case AwaitSend => AfterSendInStep(c, h, r, s, a);
      case _ => StartAttemptIsElsewhere(c, h, r);
    }
  }

  /** An answered poll. */
  lemma AnswerInStep(c: Config, h: Hook, r: nat, s: Settlement)
    requires r in h.runs && h.runs[r].pc.AwaitPoll? && RunWithinBounds(c, h.runs[r])
    requires PollsLedger(c, h.runs[r]) && (s.reply.Threw? || s.reply.Polled?)
    ensures var pc := h.runs[r].pc;
      InStepAt(c, Resume(c, h, r, s), r, Some(Answer(pc.hash, pc.polls, s)))
  {
    var hash, polls := h.runs[r].pc.hash, h.runs[r].pc.polls;
    if s.reply == Polled(Pending) && c.Polls() <= polls {
      PollTopInStep(c, h, r, hash, polls, Some(Answer(hash, polls, s)));
    }
  }

  lemma ResumeInStep(c: Config, h: Hook, r: nat, s: Settlement, a: Option<Answer>)
    requires r in h.runs && RunWithinBounds(c, h.runs[r]) && InStepAt(c, h, r, a)
    requires !IsAnswer(h, Settle(r, s), r)
    ensures InStepAt(c, Resume(c, h, r, s), r, a)
  {
    var pc := h.runs[r].pc;
    if pc.PollDelayOver? {
      PollTopInStep(c, h, r, pc.hash, pc.polls, a);
    } else if pc.PollSettled? {
      match pc.outcome
      case Success(result) => FinishIsElsewhere(c, h, r, result, s.failure, s.callbackError);
      case Failure(e) => CaughtIsElsewhere(c, h, r, e);
    } else if pc.RetryDelayOver? {
      StartAttemptIsElsewhere(c, h, r);
    } else if AwaitsStage(pc) {
      StageInStep(c, h, r, s, a);
    }
  }

  lemma SettleInStep(c: Config, h: Hook, q: nat, s: Settlement, r: nat, a: Option<Answer>)
    requires Inv(c, h) && InStepAt(c, h, r, a)
    ensures var answered := IsAnswer(h, Settle(q, s), r);
      var b := if answered then Some(Answer(h.runs[r].pc.hash, h.runs[r].pc.polls, s)) else a;
      InStepAt(c, Resume(c, h, q, s), r, b)
  {
    ResumeFrame(c, h, q, s);
    if q == r && r in h.runs {
      if IsAnswer(h, Settle(q, s), r) {
        AnswerInStep(c, h, r, s);
      } else {
        ResumeInStep(c, h, r, s, a);
      }
    }
  }

  lemma SubmitInStep(c: Config, h: Hook, action: Action, walletError: Option<Error>)
    ensures var g, r := DoSubmit(c, h, action, walletError), h.active + 1;
      r in g.runs && IsElsewhere(g.runs[r].pc) && g.runs.Keys == h.runs.Keys + {r}
  {
    var g, r := Open(h, action), h.active + 1;
    OpenAdds(h, action);
    if !(c.requireWallet && walletError.Some?) {
      SubmitStarts(c, h, action, walletError);
      StartedIsElsewhere(c, g, r, DoSubmit(c, h, action, walletError));
    }
  }

  lemma StartedIsElsewhere(c: Config, g: Hook, r: nat, k: Hook)
    requires r in g.runs && k == StartAttempt(c, g, r)
    ensures r in k.runs && IsElsewhere(k.runs[r].pc) && k.runs.Keys == g.runs.Keys
  {
    StartAttemptIsElsewhere(c, g, r);
    StartAttemptFrame(c, g, r);
  }

  lemma OpenAdds(h: Hook, action: Action)
    ensures var g, r := Open(h, action), h.active + 1;
      r in g.runs && g.runs[r].pc == Done && g.runs.Keys == h.runs.Keys + {r}
  {
  }

  lemma RefetchInStep(c: Config, h: Hook, overrideHash: Option<string>)
    requires h.active + 1 !in h.runs
    ensures var g, r := DoRefetch(c, h, overrideHash), h.active + 1;
      InStepAt(c, g, r, None) && g.runs.Keys <= h.runs.Keys + {r}
  {
    var r, target := h.active + 1, if overrideHash.Some? then overrideHash else h.view.txHashRef;
    if target.Some? && target.value != "" {
      var polling := h.lastAction.Some? && h.lastAction.value.Stages? && h.lastAction.value.pollStatus;
      PollTopInStep(c, OpenRefetch(h, polling), r, target.value, 0, None);
      PollTopFrame(c, OpenRefetch(h, polling), r, target.value, 0);
    }
  }

  /** An event that is no settlement leaves every run's polling alone, and starts at most one run, afresh. */
  lemma OtherEventInStep(c: Config, h: Hook, e: Event, r: nat, a: Option<Answer>)
    requires Inv(c, h) && InStepAt(c, h, r, a) && !e.Settle?
    ensures InStepAt(c, Step(c, h, e), r, a)
  {
    if r in h.runs {
      OtherStepKeepsRun(c, h, e, r);
      if !MayWrite(h, r) {
        StepNeverRevives(c, h, e, r);
      }
    } else {
      match e
      case Submit(action, walletError) => SubmitInStep(c, h, action, walletError);
      case Retry(walletError, _) =>
        if h.lastAction.Some? {
          SubmitInStep(c, h, h.lastAction.value, walletError);
        }
      case Refetch(overrideHash) => RefetchInStep(c, h, overrideHash);
      case _ =>
    }
  }

  lemma {:induction false} HistoryInStep(c: Config, events: seq<Event>, r: nat)
    ensures var g := RunAll(c, INITIAL_HOOK, events);
      Inv(c, g) && InStepAt(c, g, r, LastAnswer(c, INITIAL_HOOK, events, r))
  {
    EveryInterleavingIsHonest(c, events);
    if events != [] {
      var n := |events| - 1;
      var h, e := RunAll(c, INITIAL_HOOK, events[..n]), events[n];
      HistoryInStep(c, events[..n], r);
      if e.Settle? {
        SettleInStep(c, h, e.run, e.settlement, r, LastAnswer(c, INITIAL_HOOK, events[..n], r));
      } else {
        OtherEventInStep(c, h, e, r, LastAnswer(c, INITIAL_HOOK, events[..n], r));
      }
    }
  }

  /** A failure is shown if it is terminal, or the attempts are used up, or nothing can be tried again; else retried. */
  predicate FailsOrRetries(c: Config, before: Hook, after: Hook, r: nat, e: Error)
    requires r in before.runs && r in after.runs
  {
    if before.runs[r].action.None? || e.terminal || before.runs[r].attempt >= c.Attempts() then
      after.runs[r].pc == Done && after.view.status == Failed && after.view.error == Some(e)
    else
      after.runs[r].pc == RetryDelay
  }

  /** And nothing is shown of one that is retried. */
  predicate ShowsFailure(c: Config, before: Hook, after: Hook, r: nat, e: Error)
    requires r in before.runs && r in after.runs
  {
    FailsOrRetries(c, before, after, r, e) && (after.runs[r].pc == RetryDelay ==> after.view == before.view)
  }

  lemma CaughtShowsFailure(c: Config, h: Hook, r: nat, e: Error)
    requires r in h.runs && MayWrite(h, r)
    ensures r in Caught(c, h, r, e).runs && ShowsFailure(c, h, Caught(c, h, r, e), r, e)
  {
  }

  lemma FinishShowsSuccess(c: Config, h: Hook, r: nat, hash: string, s: Settlement)
    requires r in h.runs && MayWrite(h, r)
    ensures var g := Finish(c, h, r, TxResult(true, hash), s.failure, s.callbackError);
      && r in g.runs && g.view.data == Some(TxResult(true, hash))
      && (hash != "" ==> g.view.txHash == Some(hash))
      && (s.callbackError.None? ==> g.runs[r].pc == Done && g.view.status == Confirmed && g.view.error.None?)
      && (s.callbackError.Some? ==> FailsOrRetries(c, h, g, r, s.callbackError.value))
  {
  }

  /** What the end of the polling shows: `a` is the latest answer. */
  predicate ShowsAnswer(c: Config, g: Hook, k: Hook, r: nat, a: Option<Answer>, callbackError: Option<Error>)
    requires r in g.runs && r in k.runs
  {
    && (k.view.status == Confirmed && k.runs[r].pc == Done <==> Found(a) && callbackError.None?)
    && (Found(a) ==> k.view.data == Some(TxResult(true, a.value.hash)))
    && (Found(a) && callbackError.Some? ==> FailsOrRetries(c, g, k, r, callbackError.value))
  }

  lemma FoundShowsAnswer(c: Config, g: Hook, r: nat, a: Option<Answer>, s: Settlement)
    requires MayWrite(g, r) && r in g.runs && Found(a)
    requires g.runs[r].pc == PollSettled(Success(TxResult(true, a.value.hash)))
    ensures var k := Resume(c, g, r, s);
      r in k.runs && ShowsAnswer(c, g, k, r, a, s.callbackError)
  {
    FinishShowsSuccess(c, g, r, a.value.hash, s);
  }

  lemma FailureShowsAnswer(c: Config, g: Hook, r: nat, a: Option<Answer>, s: Settlement, e: Error)
    requires MayWrite(g, r) && r in g.runs && !Found(a) && g.runs[r].pc == PollSettled(Failure(e))
    ensures var k := Resume(c, g, r, s);
      r in k.runs && ShowsAnswer(c, g, k, r, a, s.callbackError) && ShowsFailure(c, g, k, r, e)
  {
    CaughtShowsFailure(c, g, r, e);
  }

  lemma PollEndShows(c: Config, g: Hook, r: nat, a: Option<Answer>, s: Settlement)
    requires MayWrite(g, r) && r in g.runs && g.runs[r].pc.PollSettled?
    requires SettledBy(c, g.runs[r].pc.outcome, a, true)
    ensures var k := Resume(c, g, r, s);
      && r in k.runs && ShowsAnswer(c, g, k, r, a, s.callbackError)
      && (!Found(a) ==> exists e :: a.Some? && FailsWith(c, a.value, e) && ShowsFailure(c, g, k, r, e))
  {
    match g.runs[r].pc.outcome
    case Success(_) => FoundShowsAnswer(c, g, r, a, s);
    case Failure(e) => FailureShowsAnswer(c, g, r, a, s, e);
  }

  /**
   The latest run, a submission or a refetch, when its polling has ended: it is confirmed
   exactly if its latest poll found the transaction, with the hash polled for, and the
   success callback does not throw. If that poll was refused, threw or was the last one
   allowed and still pending, its error is shown or the attempt is repeated.
   */
  lemma PolledRunIsConfirmedIff(c: Config, events: seq<Event>, r: nat, s: Settlement)
    requires var g := RunAll(c, INITIAL_HOOK, events);
      MayWrite(g, r) && r in g.runs && g.runs[r].pc.PollSettled? && PollsLedger(c, g.runs[r])
    ensures var g, a := RunAll(c, INITIAL_HOOK, events), LastAnswer(c, INITIAL_HOOK, events, r);
      var k := Step(c, g, Settle(r, s));
      && r in k.runs && ShowsAnswer(c, g, k, r, a, s.callbackError)
      && (!Found(a) ==> exists e :: a.Some? && FailsWith(c, a.value, e) && ShowsFailure(c, g, k, r, e))
  {
    HistoryInStep(c, events, r);
    PollEndShows(c, RunAll(c, INITIAL_HOOK, events), r, LastAnswer(c, INITIAL_HOOK, events, r), s);
  }

  /** The answer that comes to an error: a poll refused, one that throws, or the last one allowed and still pending. */
  lemma FailedPollIsShown(c: Config, h: Hook, r: nat, hash: string, polls: nat, s: Settlement, t: Settlement, e: Error)
    requires At(h, r, AwaitPoll(hash, polls), Submitting) && 1 <= polls <= c.Polls()
    requires FailsWith(c, Answer(hash, polls, s), e)
    ensures var settled := Resume(c, h, r, s);
      var g := Resume(c, settled, r, t);
      && r in settled.runs && settled.view == h.view && r in g.runs
      && ShowsFailure(c, settled, g, r, e) && g.view.status != Confirmed
  {
    var settled := Resume(c, h, r, s);
    assert settled == Suspend(h, r, PollSettled(Failure(e)));
    CaughtShowsFailure(c, settled, r, e);
  }

  // --- Refetching, retrying, and what else is shown ---

  function Target(h: Hook, overrideHash: Option<string>): Option<string> {
    if overrideHash.Some? then overrideHash else h.view.txHash
  }

  /** The last submitted action has its own poll. */
  predicate LastPolls(h: Hook) {
    h.lastAction.Some? && h.lastAction.value.Stages? && h.lastAction.value.pollStatus
  }

  /**
   A refetch asks for the given hash or else the one shown, and changes nothing without
   one. It is polled for as long as it is pending and polls are left, and confirmed with
   its data when found; if nothing can poll, it is confirmed at once.
   */
  lemma RefetchedHashIsConfirmed(c: Config, h: Hook, overrideHash: Option<string>, n: nat, e: Error)
    requires Inv(c, h) && h.mounted && (n == 0 || n < c.maxPollAttempts)
    ensures var target, r, g := Target(h, overrideHash), h.active + 1, Step(c, h, Refetch(overrideHash));
      if target.None? || target.value == "" then g == h
      else
        var polls := LastPolls(h) || c.clientPolls;
        var found := if polls
          then Resume(c, PendingPolls(c, g, r, n, e), r, Ended(Polled(Succeeded), e)) else g;
        var k := Resume(c, found, r, Ended(Ready, e));
        && g.active == r && g.view.status == Submitting
        && (polls ==> At(g, r, AwaitPoll(target.value, 1), Submitting))
        && k.view.status == Confirmed && k.view.data == Some(TxResult(true, target.value))
        && k.view.txHash == Some(target.value) && k.view.error.None?
  {
    var target, r, g := Target(h, overrideHash), h.active + 1, Step(c, h, Refetch(overrideHash));
    if target.Some? && target.value != "" {
      RefetchStarts(c, h, overrideHash, target.value);
      if LastPolls(h) || c.clientPolls {
        PendingIsPolledAgain(c, g, r, target.value, n, e);
        FoundIsShown(c, PendingPolls(c, g, r, n, e), r, target.value, n + 1, e);
      } else {
        FinishShowsSuccess(c, g, r, target.value, Ended(Ready, e));
      }
    }
  }

  lemma RefetchStarts(c: Config, h: Hook, overrideHash: Option<string>, hash: string)
    requires Inv(c, h) && h.mounted && Target(h, overrideHash) == Some(hash) && hash != ""
    ensures var r, g := h.active + 1, Step(c, h, Refetch(overrideHash));
      && (if LastPolls(h) || c.clientPolls then At(g, r, AwaitPoll(hash, 1), Submitting)
          else At(g, r, PollSettled(Success(TxResult(true, hash))), Submitting))
      && g.runs[r].polling == LastPolls(h)
  {
  }

  lemma FoundIsShown(c: Config, h: Hook, r: nat, hash: string, polls: nat, e: Error)
    requires At(h, r, AwaitPoll(hash, polls), Submitting) && hash != ""
    ensures var g := Resume(c, Resume(c, h, r, Ended(Polled(Succeeded), e)), r, Ended(Ready, e));
      && g.view.status == Confirmed && g.view.data == Some(TxResult(true, hash))
      && g.view.txHash == Some(hash) && g.view.error.None?
  {
    FinishShowsSuccess(c, Suspend(h, r, PollSettled(Success(TxResult(true, hash)))), r, hash, Ended(Ready, e));
  }

  function LastSubmitted(events: seq<Event>): Option<Action> {
    if events == [] then None
    else if events[|events| - 1].Submit? then Some(events[|events| - 1].action)
    else LastSubmitted(events[..|events| - 1])
  }

  lemma {:induction false} LastActionIsLastSubmitted(c: Config, events: seq<Event>)
    ensures RunAll(c, INITIAL_HOOK, events).lastAction == LastSubmitted(events)
  {
    if events != [] {
      var n := |events| - 1;
      LastActionIsLastSubmitted(c, events[..n]);
      LastActionAfter(c, RunAll(c, INITIAL_HOOK, events[..n]), events[n]);
    }
  }

  lemma LastActionAfter(c: Config, h: Hook, e: Event)
    ensures Step(c, h, e).lastAction == if e.Submit? then Some(e.action) else h.lastAction
  {
    match e
    case Submit(action, walletError) => SubmitSetsAction(c, h, action, walletError);
    case Retry(walletError, _) =>
      if h.lastAction.Some? {
        SubmitSetsAction(c, h, h.lastAction.value, walletError);
      }
    case Refetch(overrideHash) =>
      var r, target := h.active + 1, if overrideHash.Some? then overrideHash else h.view.txHashRef;
      if target.Some? && target.value != "" {
        PollTopFrame(c, OpenRefetch(h, LastPolls(h)), r, target.value, 0);
      }
    case Settle(r, s) => ResumeFrame(c, h, r, s);
    case _ =>
  }

  lemma SubmitSetsAction(c: Config, h: Hook, action: Action, walletError: Option<Error>)
    ensures DoSubmit(c, h, action, walletError).lastAction == Some(action)
  {
    StartAttemptFrame(c, Open(h, action), h.active + 1);
  }

  /** In every history a retry submits the action submitted last; if there is none, it shows an error. */
  lemma RetryRepeatsLastSubmitted(c: Config, events: seq<Event>, walletError: Option<Error>, noAction: Error)
    ensures var h, last := RunAll(c, INITIAL_HOOK, events), LastSubmitted(events);
      var g := Step(c, h, Retry(walletError, noAction));
      && (last.Some? ==> g == Step(c, h, Submit(last.value, walletError)))
      && (last.None? && h.mounted ==>
            g == h.(view := g.view) && g.view.status == Failed && g.view.error == Some(noAction))
      && (last.None? && !h.mounted ==> g == h)
  {
    LastActionIsLastSubmitted(c, events);
  }

  /** A submission wipes what was shown; without the wallet it needs it fails at once, and nothing of it runs. */
  lemma SubmissionStartsBlank(c: Config, h: Hook, action: Action, walletError: Option<Error>)
    requires h.mounted
    ensures var r, g := h.active + 1, Step(c, h, Submit(action, walletError));
      && g.active == r && r in g.runs
      && (if c.requireWallet && walletError.Some? then
            g.view == View(Failed, Failed, None, None, None, walletError, 0) && g.runs[r].pc == Done
          else
            var first := if action.Callback? || action.simulate then Simulating
                         else if action.sign then Signing else Submitting;
            g.view == View(first, first, None, None, None, None, 0))
  {
  }

  /**
   What the callbacks of an action mark is shown while its run is the latest, with the hash
   if one is given, and noted for the attempt to which they belong.
   */
  lemma MarksAreShown(c: Config, h: Hook, r: nat, attempt: nat, phase: Phase, hash: string)
    requires MayWrite(h, r) && r in h.runs && h.runs[r].action == Some(Callback)
    ensures var g := Step(c, h, Mark(r, attempt, phase));
      r in g.runs && g.runs[r].advanced == (h.runs[r].advanced || attempt == h.runs[r].attempt)
    ensures var g := Step(c, h, Mark(r, attempt, MarkSimulating)); g.view == SetStatus(h.view, Simulating)
    ensures var g := Step(c, h, Mark(r, attempt, MarkSigning)); g.view == SetStatus(h.view, Signing)
    ensures var g := Step(c, h, Mark(r, attempt, MarkSubmitting(hash)));
      && g.view.status == Submitting
      && g.view.txHash == if hash != "" then Some(hash) else h.view.txHash
  {
  }

  /** An action that fails without a mark of its own is shown as submitting while it waits to be tried again. */
  lemma UnmarkedActionHasSubmitted(c: Config, h: Hook, r: nat, s: Settlement)
    requires MayWrite(h, r) && r in h.runs && h.runs[r].action.Some? && h.runs[r].attempt < c.Attempts()
    requires h.runs[r].pc.AwaitAction? && s.reply.Returned? && !s.reply.result.success && !s.failure.terminal
    ensures var g := Resume(c, h, r, s);
      && r in g.runs && g.runs[r].pc == RetryDelay
      && g.view.status == if h.runs[r].advanced then h.view.status else Submitting
  {
    var g := if h.runs[r].advanced then h else UpdateStatus(UpdateStatus(h, Signing, r), Submitting, r);
    FailedResultIsRetried(c, g, r, s.reply.result, s);
  }

  lemma FailedResultIsRetried(c: Config, h: Hook, r: nat, result: TxResult, s: Settlement)
    requires MayWrite(h, r) && r in h.runs && h.runs[r].action.Some? && h.runs[r].attempt < c.Attempts()
    requires !result.success && !s.failure.terminal
    ensures var g := Finish(c, h, r, result, s.failure, s.callbackError);
      r in g.runs && g.runs[r].pc == RetryDelay && g.view.status == h.view.status
  {
  }

  /** A hash that sending reports is shown, whatever becomes of the attempt. */
  lemma ReportedHashIsShown(c: Config, h: Hook, r: nat, s: Settlement, hash: string)
    requires MayWrite(h, r) && r in h.runs && hash != ""
    requires || (h.runs[r].pc.AwaitSend? && s.reply == SentHash(hash))
             || (h.runs[r].pc.AwaitSend? && s.reply.SentOutput? && s.reply.hash == hash)
             || (h.runs[r].pc.AwaitAction? && s.reply.Returned? && s.reply.result.hash == hash)
    ensures Resume(c, h, r, s).view.txHash == Some(hash)
  {
    if s.reply.SentOutput? {
      var g := SetHash(h, hash);
      FinishKeepsHash(c, g, r, TxResult(s.reply.success.None? || s.reply.success.value, hash), s);
    } else if s.reply.Returned? {
      var g := if h.runs[r].advanced then h else UpdateStatus(UpdateStatus(h, Signing, r), Submitting, r);
      FinishKeepsHash(c, g, r, s.reply.result, s);
    }
  }

  lemma FinishKeepsHash(c: Config, h: Hook, r: nat, result: TxResult, s: Settlement)
    requires MayWrite(h, r) && r in h.runs && result.hash != ""
    ensures Finish(c, h, r, result, s.failure, s.callbackError).view.txHash == Some(result.hash)
  {
  }

  /** What is shown, apart from the ref that only a refetch reads. */
  function Shown(v: View): View {
    v.(txHashRef := None)
  }

  lemma UnmountedStepShowsNothing(c: Config, h: Hook, e: Event)
    requires !h.mounted
    ensures var g := Step(c, h, e); !g.mounted && Shown(g.view) == Shown(h.view)
  {
    match e
    case Submit(action, walletError) => UnmountedSubmit(c, h, action, walletError);
    case Retry(walletError, _) =>
      if h.lastAction.Some? {
        UnmountedSubmit(c, h, h.lastAction.value, walletError);
      }
    case Refetch(overrideHash) =>
    case Settle(r, s) =>
      ResumeFrame(c, h, r, s);
      SupersededRunWritesNothing(c, h, e, r);
    case Mark(r, _, _) => SupersededRunWritesNothing(c, h, e, r);
    case _ =>
  }

  lemma UnmountedSubmit(c: Config, h: Hook, action: Action, walletError: Option<Error>)
    requires !h.mounted
    ensures var g := DoSubmit(c, h, action, walletError); !g.mounted && g.view == h.view
  {
  }

  /** Once the component is unmounted nothing that is shown changes any more, whatever is called or settles. */
  lemma {:induction false} UnmountIsFinal(c: Config, h: Hook, events: seq<Event>)
    ensures var g := RunAll(c, Step(c, h, Unmount), events); !g.mounted && Shown(g.view) == Shown(h.view)
  {
    if events != [] {
      var n := |events| - 1;
      UnmountIsFinal(c, h, events[..n]);
      UnmountedStepShowsNothing(c, RunAll(c, Step(c, h, Unmount), events[..n]), events[n]);
    }
  }

  /** A failure of the action, and the delay after it. */
  function TryAgain(c: Config, h: Hook, r: nat, e: Error): Hook {
    var failed := Resume(c, h, r, Ended(Threw(e), e));
    Resume(c, Resume(c, failed, r, Ended(Ready, e)), r, Ended(Ready, e))
  }

  function FailTimes(c: Config, h: Hook, r: nat, n: nat, e: Error): Hook
    decreases n
  {
    if n == 0 then h else TryAgain(c, FailTimes(c, h, r, n - 1, e), r, e)
  }

  /** The run waits for its action, in its n-th attempt after the first. */
  predicate InAttempt(h: Hook, r: nat, n: nat) {
    && At(h, r, AwaitAction, Simulating) && h.runs[r].action == Some(Callback)
    && h.runs[r].attempt == n + 1 && h.view.retryCount == n && !h.runs[r].advanced
  }

  lemma FailureIsTriedAgain(c: Config, h: Hook, r: nat, n: nat, e: Error)
    requires InAttempt(h, r, n) && !e.terminal && n + 1 < c.Attempts()
    ensures InAttempt(TryAgain(c, h, r, e), r, n + 1)
  {
  }

  lemma FirstAttempt(c: Config, h: Hook, walletError: Option<Error>)
    requires h.mounted && !(c.requireWallet && walletError.Some?)
    ensures InAttempt(DoSubmit(c, h, Callback, walletError), h.active + 1, 0)
  {
  }

  lemma {:induction false} FailuresAreTriedAgain(c: Config, h: Hook, r: nat, n: nat, e: Error, g: Hook)
    requires InAttempt(h, r, 0) && !e.terminal && n < c.Attempts() && g == FailTimes(c, h, r, n, e)
    ensures InAttempt(g, r, n)
    decreases n
  {
    if n == 0 {
      InAttemptAlike(g, h, r, 0);
    } else {
      var before := FailTimes(c, h, r, n - 1, e);
      FailuresAreTriedAgain(c, h, r, n - 1, e, before);
      FailureIsTriedAgain(c, before, r, n - 1, e);
      InAttemptAlike(g, TryAgain(c, before, r, e), r, n);
    }
  }

  lemma InAttemptAlike(g: Hook, h: Hook, r: nat, n: nat)
    requires InAttempt(h, r, n) && g == h
    ensures InAttempt(g, r, n)
  {
  }

  /** An action that keeps failing is tried once more for each retry allowed, and shown as failed after the last. */
  lemma TriedOncePerRetry(c: Config, h: Hook, walletError: Option<Error>, n: nat, e: Error)
    requires h.mounted && !(c.requireWallet && walletError.Some?) && !e.terminal
    requires n == 0 || n <= c.maxRetries
    ensures var r := h.active + 1;
      var g := FailTimes(c, DoSubmit(c, h, Callback, walletError), r, n, e);
      && InAttempt(g, r, n)
      && (c.maxRetries <= n ==>
            var k := Resume(c, g, r, Ended(Threw(e), e));
            r in k.runs && k.runs[r].pc == Done && k.view.status == Failed && k.view.error == Some(e))
  {
    var r, g0 := h.active + 1, DoSubmit(c, h, Callback, walletError);
    FirstAttempt(c, h, walletError);
    FailuresAreTriedAgain(c, g0, r, n, e, FailTimes(c, g0, r, n, e));
    CaughtShowsFailure(c, FailTimes(c, g0, r, n, e), r, e);
  }

  /** A submission that fails and is reset while it waits to try again: its promise never settles. */
  lemma ResetStrandsRetry()
    ensures
      var c := Config(false, 1, 1, false);
      var failed := Settlement(Threw(Error("network", false)), Error("", false), None);
      var h := RunAll(c, INITIAL_HOOK, [Submit(Callback, None), Settle(1, failed), Reset]);
      1 in h.runs && h.runs[1].pc == Hung
  {
    var c := Config(false, 1, 1, false);
    var failed := Settlement(Threw(Error("network", false)), Error("", false), None);
    var h1 := Step(c, INITIAL_HOOK, Submit(Callback, None));
    FirstAttempt(c, INITIAL_HOOK, None);
    CaughtShowsFailure(c, h1, 1, Error("network", false));
    var h2 := Step(c, h1, Settle(1, failed));
    assert 1 in h2.runs && h2.runs[1].pc == RetryDelay;
    RunThree(c, INITIAL_HOOK, Submit(Callback, None), Settle(1, failed), Reset);
  }

  lemma RunThree(c: Config, h: Hook, e1: Event, e2: Event, e3: Event)
    ensures RunAll(c, h, [e1, e2, e3]) == Step(c, Step(c, Step(c, h, e1), e2), e3)
  {
    assert [e1, e2, e3][..2] == [e1, e2] && [e1, e2][..1] == [e1] && [e1][..0] == [];
    assert RunAll(c, h, [e1]) == Step(c, RunAll(c, h, []), e1);
    assert RunAll(c, h, [e1, e2]) == Step(c, RunAll(c, h, [e1]), e2);
  }
}
