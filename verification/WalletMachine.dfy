/**
 The wallet connection machine (react/src/context.tsx): a pure reducer, and the
 asynchronous connect and disconnect around it. The token and vault clients and
 the expected network are fixed; a hardware probe answers at once.
 */
module WalletMachine {
  import opened Wrappers

  /** An adapter object; factories may hand out the same one again. */
  type Adapter = nat

  datatype MachineState =
    | Disconnected
    | Connecting(wallet: string)
    | Connected(wallet: string, adapter: Adapter, publicKey: string, hardware: bool)
    | WrongNetwork(wallet: string, adapter: Adapter, expected: string, actual: string)
    | Errored(erroredWallet: Option<string>, erroredAdapter: Option<Adapter>, error: string)

  datatype Action =
    | DoConnecting(wallet: string)
    | DoConnected(wallet: string, adapter: Adapter, publicKey: string, hardware: bool)
    | DoWrongNetwork(wallet: string, adapter: Adapter, expected: string, actual: string)
    | DoError(failedWallet: Option<string>, failedAdapter: Option<Adapter>, error: string)
    | DoDisconnected

  function WalletReducer(state: MachineState, action: Action): MachineState {
    match action
    case DoConnecting(w) => Connecting(w)
    case DoConnected(w, a, k, h) => Connected(w, a, k, h)
    case DoWrongNetwork(w, a, e, n) => WrongNetwork(w, a, e, n)
    case DoError(w, a, e) => Errored(w, a, e)
    case DoDisconnected => Disconnected
  }

  function AdapterOf(s: MachineState): Option<Adapter> {
    match s
    case Connected(_, a, _, _) => Some(a)
    case WrongNetwork(_, a, _, _) => Some(a)
    case Errored(_, a, _) => a
    case _ => None
  }

  /** Where a connect call is suspended; it is known by the attempt number it drew. */
  datatype Pc = AwaitConnect(wallet: string, adapter: Adapter) | AwaitCleanup | Done

  datatype World = World(
    state: MachineState,
    stateRef: MachineState,
    connectAttempt: nat,
    activeAdapter: Option<Adapter>,
    client: Option<Adapter>,
    vault: Option<Adapter>,
    calls: map<nat, Pc>,
    connectedBy: nat,
    network: Option<string>)

  /** The fixed surroundings: is there a vault client, and which network is expected. */
  datatype Config = Config(hasVault: bool, networkPassphrase: string)

  /** What `adapter.connect()` settles to, and what the adapter then reports. */
  datatype Reply =
    | Ok(connected: bool, publicKey: string, network: string, hardware: bool, laterError: Option<string>)
    | Rejected(error: string)

  datatype Event =
    | Connect(wallet: string, made: Option<Adapter>)
    | Settle(attempt: nat, reply: Reply)
    | Disconnect
    | Render

  /** The clients may have been configured with adapters of their own. */
  function Init(c: Config, client: Option<Adapter>, vault: Option<Adapter>): World {
    World(Disconnected, Disconnected, 0, None, client, if c.hasVault then vault else None, map[], 0, None)
  }

  function Dispatch(w: World, a: Action): World {
    w.(state := WalletReducer(w.state, a))
  }

  function SetClients(c: Config, w: World, a: Option<Adapter>): World {
    w.(client := a, vault := if c.hasVault then a else w.vault)
  }

  function FirstOf(a: Option<Adapter>, b: Option<Adapter>): Option<Adapter> {
    if a.Some? then a else b
  }

  /** The adapter that connect and disconnect find in place. */
  function PreviousAdapter(w: World): Option<Adapter> {
    FirstOf(w.activeAdapter, FirstOf(AdapterOf(w.stateRef), FirstOf(w.client, w.vault)))
  }

  /** The catch block of connect. */
  function Fail(c: Config, w: World, attempt: nat, wallet: string, adapter: Option<Adapter>, error: string): World {
    if attempt != w.connectAttempt then w
    else Dispatch(SetClients(c, w, None).(activeAdapter := adapter), DoError(Some(wallet), adapter, error))
  }

  /** connect, up to its first await. */
  function DoConnect(c: Config, w: World, wallet: string, made: Option<Adapter>): World {
    var attempt := w.connectAttempt + 1;
    var drawn := w.(connectAttempt := attempt);
    var cleared := if PreviousAdapter(w).Some? then SetClients(c, drawn, None) else drawn;
    var g := Dispatch(cleared.(activeAdapter := None), DoConnecting(wallet));
    match made
    case Some(a) => g.(activeAdapter := Some(a), calls := g.calls[attempt := AwaitConnect(wallet, a)])
    case None => Fail(c, g, attempt, wallet, None, "factory").(calls := g.calls[attempt := Done])
  }

  /** connect, from `await adapter.connect()` on. */
  function AfterConnect(c: Config, w: World, attempt: nat, wallet: string, a: Adapter, r: Reply): World {
    match r
    case Rejected(error) => Fail(c, w, attempt, wallet, Some(a), error)
    case Ok(connected, publicKey, network, hardware, laterError) =>
      if attempt != w.connectAttempt then w
      else if !connected || publicKey == "" then Fail(c, w, attempt, wallet, Some(a), "no account")
      else if network != "" && network != c.networkPassphrase then
        var g := SetClients(c, w, None);
        if laterError.Some? then Fail(c, g, attempt, wallet, Some(a), laterError.value)
        else Dispatch(g, DoWrongNetwork(wallet, a, c.networkPassphrase, network))
      else
        var g := SetClients(c, w, Some(a));
        if laterError.Some? then Fail(c, g, attempt, wallet, Some(a), laterError.value)
        else
          Dispatch(g, DoConnected(wallet, a, publicKey, hardware)).(connectedBy := attempt, network := Some(network))
  }

  function DoSettle(c: Config, w: World, attempt: nat, r: Reply): World {
    if attempt !in w.calls then w
    else match w.calls[attempt]
      case AwaitConnect(wallet, a) =>
        // A superseded attempt disconnects its adapter and waits for that before it ends.
        var after := if r.Ok? && attempt != w.connectAttempt then AwaitCleanup else Done;
        AfterConnect(c, w, attempt, wallet, a, r).(calls := w.calls[attempt := after])
      case AwaitCleanup => w.(calls := w.calls[attempt := Done])
      case Done => w
  }

  function DoDisconnect(c: Config, w: World): World {
    var g := w.(connectAttempt := w.connectAttempt + 1, activeAdapter := None);
    Dispatch(SetClients(c, g, None), DoDisconnected)
  }

  function Step(c: Config, w: World, e: Event): World {
    match e
    case Connect(wallet, made) => DoConnect(c, w, wallet, made)
    case Settle(attempt, r) => DoSettle(c, w, attempt, r)
    case Disconnect => DoDisconnect(c, w)
    case Render => w.(stateRef := w.state)
  }

  function RunAll(c: Config, w: World, events: seq<Event>): World {
    if events == [] then w else Step(c, RunAll(c, w, events[..|events| - 1]), events[|events| - 1])
  }

  // --- Clients and machine agree ---

  /**
   Both clients hold the machine's adapter while it is connected and none otherwise; the
   connection is the work of the latest attempt, on a network not reported as different.
   */
  ghost predicate InStep(c: Config, w: World) {
    && w.client == (if w.state.Connected? then Some(w.state.adapter) else None)
    && w.vault == (if c.hasVault then w.client else None)
    && (w.state.Connected? ==>
          && w.connectedBy == w.connectAttempt
          && w.activeAdapter == Some(w.state.adapter)
          && (w.network == Some("") || w.network == Some(c.networkPassphrase)))
  }

  /** Attempts that are still waiting have numbers already drawn. */
  ghost predicate CallsDrawn(w: World) {
    forall n :: n in w.calls ==> n <= w.connectAttempt
  }

  /** While the latest attempt waits, its adapter is the active one, and the machine is connecting its wallet. */
  ghost predicate LatestIsActive(w: World) {
    w.connectAttempt in w.calls && w.calls[w.connectAttempt].AwaitConnect? ==>
      && w.activeAdapter == Some(w.calls[w.connectAttempt].adapter)
      && w.state == Connecting(w.calls[w.connectAttempt].wallet)
  }

  /** The machine is connecting only while the latest attempt waits. */
  ghost predicate ConnectingAwaits(w: World) {
    w.state.Connecting? ==> w.connectAttempt in w.calls && w.calls[w.connectAttempt].AwaitConnect?
  }

  ghost predicate Inv(c: Config, w: World) {
    InStep(c, w) && CallsDrawn(w) && LatestIsActive(w) && ConnectingAwaits(w)
  }

  predicate Touches(e: Event) {
    e.Connect? || e.Disconnect?
  }

  lemma ConnectKeepsInv(c: Config, w: World, wallet: string, made: Option<Adapter>)
    requires CallsDrawn(w) && (!c.hasVault ==> w.vault.None?)
    ensures Inv(c, DoConnect(c, w, wallet, made))
  {
  }

  lemma DisconnectKeepsInv(c: Config, w: World)
    requires CallsDrawn(w) && (!c.hasVault ==> w.vault.None?)
    ensures Inv(c, DoDisconnect(c, w))
  {
  }

  lemma LatestStaysInStep(c: Config, w: World, wallet: string, a: Adapter, r: Reply)
    requires InStep(c, w) && w.activeAdapter == Some(a)
    ensures var g := AfterConnect(c, w, w.connectAttempt, wallet, a, r);
      InStep(c, g) && !g.state.Connecting? && g.connectAttempt == w.connectAttempt && g.calls == w.calls
  {
  }

  lemma SettleKeepsInv(c: Config, w: World, attempt: nat, r: Reply)
    requires Inv(c, w)
    ensures Inv(c, DoSettle(c, w, attempt, r))
  {
    if attempt in w.calls && w.calls[attempt].AwaitConnect? && attempt == w.connectAttempt {
      LatestStaysInStep(c, w, w.calls[attempt].wallet, w.calls[attempt].adapter, r);
    }
  }

  /** Until the first connect or disconnect nothing but the rendered state can change. */
  lemma {:induction false} NothingBeforeFirstCall(c: Config, client: Option<Adapter>, vault: Option<Adapter>,
                                                  events: seq<Event>)
    requires forall i :: 0 <= i < |events| ==> !Touches(events[i])
    ensures RunAll(c, Init(c, client, vault), events) == Init(c, client, vault)
  {
    if events != [] {
      NothingBeforeFirstCall(c, client, vault, events[..|events| - 1]);
      assert !Touches(events[|events| - 1]);
    }
  }

  ghost predicate Called(events: seq<Event>) {
    exists i :: 0 <= i < |events| && Touches(events[i])
  }

  lemma CalledByNow(events: seq<Event>)
    requires Called(events)
    ensures Called(events[..|events| - 1]) || Touches(events[|events| - 1])
  {
    if !Touches(events[|events| - 1]) {
      var i :| 0 <= i < |events| && Touches(events[i]);
      assert events[..|events| - 1][i] == events[i];
    }
  }

  /**
   Whatever the clients were configured with, from the first connect or disconnect on
   every interleaving keeps clients and machine in step.
   */
  lemma {:induction false} EveryInterleavingInStep(c: Config, client: Option<Adapter>, vault: Option<Adapter>,
                                                   events: seq<Event>)
    requires Called(events)
    ensures Inv(c, RunAll(c, Init(c, client, vault), events))
  {
    var n := |events| - 1;
    var before, e := events[..n], events[n];
    var w := RunAll(c, Init(c, client, vault), before);
    CalledByNow(events);
    if Called(before) {
      EveryInterleavingInStep(c, client, vault, before);
      StepKeepsInv(c, w, e);
    } else {
      forall i | 0 <= i < |before| ensures !Touches(before[i]) {}
      NothingBeforeFirstCall(c, client, vault, before);
      if e.Connect? {
        ConnectKeepsInv(c, w, e.wallet, e.made);
      } else {
        DisconnectKeepsInv(c, w);
      }
    }
  }

  lemma StepKeepsInv(c: Config, w: World, e: Event)
    requires Inv(c, w)
    ensures Inv(c, Step(c, w, e))
  {
    match e
    case Connect(wallet, made) => ConnectKeepsInv(c, w, wallet, made);
    case Settle(attempt, r) => SettleKeepsInv(c, w, attempt, r);
    case Disconnect => DisconnectKeepsInv(c, w);
    case Render =>
  }

  lemma InStepWithoutAdapters(c: Config, events: seq<Event>)
    ensures InStep(c, RunAll(c, Init(c, None, None), events))
  {
    if Called(events) {
      EveryInterleavingInStep(c, None, None, events);
    } else {
      forall i | 0 <= i < |events| ensures !Touches(events[i]) {}
      NothingBeforeFirstCall(c, None, None, events);
    }
  }

  ghost predicate AlwaysInStep(c: Config, w: World) {
    forall events :: InStep(c, RunAll(c, w, events))
  }

  /** From the very start the two are in step exactly if no adapter was configured. */
  lemma InStepFromStartIff(c: Config, client: Option<Adapter>, vault: Option<Adapter>)
    ensures AlwaysInStep(c, Init(c, client, vault)) <==> client.None? && (c.hasVault ==> vault.None?)
  {
    var w := Init(c, client, vault);
    if client.None? && (c.hasVault ==> vault.None?) {
      assert w == Init(c, None, None);
      forall events ensures InStep(c, RunAll(c, w, events)) {
        InStepWithoutAdapters(c, events);
      }
    } else {
      var none: seq<Event> := [];
      assert !InStep(c, RunAll(c, w, none));
    }
  }

  // --- Superseded attempts ---

  /** An attempt that is not the latest changes neither the machine nor the clients. */
  lemma SupersededAttemptChangesNothing(c: Config, w: World, attempt: nat, r: Reply)
    requires attempt != w.connectAttempt
    ensures Step(c, w, Settle(attempt, r)) == w.(calls := Step(c, w, Settle(attempt, r)).calls)
  {
  }

  /** After a disconnect the clients stay empty until somebody connects, however late an attempt settles. */
  lemma {:induction false} DisconnectIsFinal(c: Config, w: World, events: seq<Event>)
    requires CallsDrawn(w) && (!c.hasVault ==> w.vault.None?)
    requires forall i :: 0 <= i < |events| ==> !events[i].Connect?
    ensures var g := RunAll(c, DoDisconnect(c, w), events);
      && g.state == Disconnected && g.client.None? && g.vault.None?
      && CallsDrawn(g) && g.connectAttempt !in g.calls
  {
    if events != [] {
      var n := |events| - 1;
      DisconnectIsFinal(c, w, events[..n]);
      var g, e := RunAll(c, DoDisconnect(c, w), events[..n]), events[n];
      assert !e.Connect?;
      if e.Settle? && e.attempt in g.calls {
        SupersededAttemptChangesNothing(c, g, e.attempt, e.reply);
      }
    }
  }

  /** The adapter that a disconnect asks to disconnect is the connected one. */
  lemma DisconnectReachesConnected(c: Config, client: Option<Adapter>, vault: Option<Adapter>, events: seq<Event>)
    requires Called(events) && RunAll(c, Init(c, client, vault), events).state.Connected?
    ensures var w := RunAll(c, Init(c, client, vault), events);
      PreviousAdapter(w) == Some(w.state.adapter)
  {
    EveryInterleavingInStep(c, client, vault, events);
  }

  /**
   The machine is connecting exactly while the latest attempt waits for its adapter; it
   then names the wallet of that attempt, and a disconnect finds the adapter.
   */
  lemma ConnectingIffAwaited(c: Config, client: Option<Adapter>, vault: Option<Adapter>, events: seq<Event>)
    requires Called(events)
    ensures var w := RunAll(c, Init(c, client, vault), events);
      && (w.state.Connecting? <==> w.connectAttempt in w.calls && w.calls[w.connectAttempt].AwaitConnect?)
      && (w.state.Connecting? ==>
            && w.state.wallet == w.calls[w.connectAttempt].wallet
            && PreviousAdapter(w) == Some(w.calls[w.connectAttempt].adapter)
            && w.client.None? && (c.hasVault ==> w.vault.None?))
  {
    EveryInterleavingInStep(c, client, vault, events);
  }

  /** A connect whose adapter cannot be made ends at once, with empty clients; it supersedes what was before. */
  lemma FailedFactoryEndsConnect(c: Config, client: Option<Adapter>, vault: Option<Adapter>, events: seq<Event>,
                                 wallet: string)
    requires Called(events)
    ensures var w := RunAll(c, Init(c, client, vault), events);
      var g := Step(c, w, Connect(wallet, None));
      && g.connectAttempt == w.connectAttempt + 1
      && g.state.Errored? && g.state.erroredWallet == Some(wallet) && g.state.erroredAdapter == None
      && g.client.None? && (c.hasVault ==> g.vault.None?) && g.activeAdapter.None?
  {
    EveryInterleavingInStep(c, client, vault, events);
  }

  // --- The latest attempt ---

  /** The attempt is the latest one and waits for its adapter. */
  ghost predicate Waiting(w: World, attempt: nat, wallet: string, a: Adapter) {
    && w.connectAttempt == attempt && attempt in w.calls
    && w.calls[attempt] == AwaitConnect(wallet, a)
  }

  /** Nobody connects or disconnects, and the attempt itself does not settle. */
  predicate LeavesAlone(e: Event, attempt: nat) {
    !Touches(e) && !(e.Settle? && e.attempt == attempt)
  }

  lemma {:induction false} StillWaiting(c: Config, w: World, wallet: string, a: Adapter, events: seq<Event>)
    requires forall i :: 0 <= i < |events| ==> LeavesAlone(events[i], w.connectAttempt + 1)
    ensures Waiting(RunAll(c, DoConnect(c, w, wallet, Some(a)), events), w.connectAttempt + 1, wallet, a)
  {
    if events != [] {
      StillWaiting(c, w, wallet, a, events[..|events| - 1]);
      assert LeavesAlone(events[|events| - 1], w.connectAttempt + 1);
    }
  }

  /** The machine and the clients after the latest attempt has settled. */
  ghost predicate EndsAsReported(c: Config, g: World, wallet: string, a: Adapter, r: Reply) {
    var account := r.Ok? && r.connected && r.publicKey != "" && r.laterError.None?;
    var foreign := r.Ok? && r.network != "" && r.network != c.networkPassphrase;
    && (account && !foreign ==>
          && g.state == Connected(wallet, a, r.publicKey, r.hardware)
          && g.client == Some(a) && (c.hasVault ==> g.vault == Some(a)))
    && (account && foreign ==> g.state == WrongNetwork(wallet, a, c.networkPassphrase, r.network))
    && (!account ==>
          && g.state.Errored? && g.state.erroredWallet == Some(wallet) && g.state.erroredAdapter == Some(a)
          && (r.Rejected? ==> g.state.error == r.error)
          && (r.Ok? && r.connected && r.publicKey != "" ==> Some(g.state.error) == r.laterError))
    && (!account || foreign ==> g.client.None? && (c.hasVault ==> g.vault.None?))
  }

  lemma AfterConnectEndsAsReported(c: Config, w: World, wallet: string, a: Adapter, r: Reply)
    ensures EndsAsReported(c, AfterConnect(c, w, w.connectAttempt, wallet, a, r), wallet, a, r)
  {
  }

  /**
   A connect that nobody supersedes, whatever settles in between, ends as its adapter
   reports: connected with that adapter in both clients exactly if there is an account,
   on no network reported as different, and the rest of the attempt does not throw.
   */
  lemma LatestConnectEndsAsReported(c: Config, w: World, wallet: string, a: Adapter, events: seq<Event>, r: Reply)
    requires forall i :: 0 <= i < |events| ==> LeavesAlone(events[i], w.connectAttempt + 1)
    ensures var g := Step(c, RunAll(c, DoConnect(c, w, wallet, Some(a)), events), Settle(w.connectAttempt + 1, r));
      EndsAsReported(c, g, wallet, a, r)
  {
    StillWaiting(c, w, wallet, a, events);
    AfterConnectEndsAsReported(c, RunAll(c, DoConnect(c, w, wallet, Some(a)), events), wallet, a, r);
  }
}
