/** The response engine of `Bot` as a function of its state: the FIFO queue
    of ping hashes, the one in-flight pong and the nonce.

    Beside the bot's own fields the state carries three histories that
    the bot does not keep but that the properties are about: every pong
    broadcast (`sent`), every ping hash handed to `send_pong_call`
    (`submitted`), and how many broadcast pongs were confirmed. */
module Engine {
  import opened Ledger

  /** A broadcast pong: its transaction id, the ping hash it answers, its nonce. */
  datatype Pong = Pong(id: Hex, data: Hex, nonce: nat)

  /** Why the process stopped: an uncaught lookup error during recovery,
      or, under the intended reading of `check_pending_txs` only, a
      reverted pong. */
  datatype ExitReason = PongReverted | TxNotFound(hash: Hex) | BlockNotFound(block: int)

  datatype Status = Running | Exited(reason: ExitReason)

  datatype State = State(
    queue: seq<Hex>,
    pendingPongTx: Option<Hex>,
    pendingPongData: Option<Hex>,
    nonce: nat,
    startingBlock: int,
    status: Status,
    sent: seq<Pong>,
    submitted: seq<Hex>,
    confirmed: nat)

  function Datas(pongs: seq<Pong>): (r: seq<Hex>)
    ensures |r| == |pongs|
    ensures forall i :: 0 <= i < |pongs| ==> r[i] == pongs[i].data
  {
    seq(|pongs|, i requires 0 <= i < |pongs| => pongs[i].data)
  }

  /** The engine's invariant.
      - no hash lost or duplicated, FIFO: what was broadcast followed by
        what is queued is exactly what was submitted, in order;
      - nonces of broadcast pongs strictly increase and stay below `nonce`;
      - at most one broadcast pong is unconfirmed, and it is the in-flight one. */
  ghost predicate Inv(s: State)
  {
    && Datas(s.sent) + s.queue == s.submitted
    && (forall i, j :: 0 <= i < j < |s.sent| ==> s.sent[i].nonce < s.sent[j].nonce)
    && (forall i :: 0 <= i < |s.sent| ==> s.sent[i].nonce < s.nonce)
    && s.confirmed <= |s.sent| <= s.confirmed + 1
    && (|s.sent| == s.confirmed + 1 ==>
          s.pendingPongTx == Some(Last(s.sent).id) && s.pendingPongData == Some(Last(s.sent).data))
  }

  /** A freshly constructed bot: nothing queued, in flight or sent. */
  function Initial(nonce: nat, startingBlock: int): State
  {
    State([], None, None, nonce, startingBlock, Running, [], [], 0)
  }

  /** `build_and_send_tx`: broadcast a pong for `data` with the current nonce,
      record it as in flight and bump the nonce. */
  function BuildAndSendTx(s: State, data: Hex, cfg: Config): State
  {
    var id := cfg.broadcast(data, s.nonce);
    s.(pendingPongTx := Some(id), pendingPongData := Some(data), nonce := s.nonce + 1,
       sent := s.sent + [Pong(id, data, s.nonce)])
  }

  /** `send_pong_call`: queue while a pong is in flight; otherwise put the
      hash at the tail and broadcast the oldest queued one. */
  function SendPongCall(s: State, h: Hex, cfg: Config): State
  {
    var s' := s.(submitted := s.submitted + [h]);
    if s.pendingPongTx.Some? then s'.(queue := s.queue + [h])
    else if s.queue != [] then BuildAndSendTx(s'.(queue := s.queue[1..] + [h]), s.queue[0], cfg)
    else BuildAndSendTx(s', h, cfg)
  }

  /** `consume_pong_queue`: with nothing in flight, send the queue head. */
  function ConsumePongQueue(s: State, cfg: Config): State
  {
    if s.pendingPongTx.None? && s.queue != [] then BuildAndSendTx(s.(queue := s.queue[1..]), s.queue[0], cfg)
    else s
  }

  /** `check_pending_txs` as written, for one outcome of the receipt
      lookup. On a reverted receipt the `sys.exit(1)` raises `SystemExit`
      inside the `try`, and the bare `except:` catches it like any lookup
      error: the bot logs `[PENDING]` and keeps running with the reverted
      pong still recorded as in flight. */
  function CheckPendingTxs(s: State, receipt: Receipt): State
  {
    match receipt
    case Succeeded =>
      s.(pendingPongTx := None, confirmed := if |s.sent| > s.confirmed then s.confirmed + 1 else s.confirmed)
    case Reverted => s
    case NoReceipt => s
    case LookupError => s
  }

  /** `check_pending_txs` as evidently intended: a reverted receipt ends the
      process, as the `sys.exit(1)` outside the `try` would. */
  function CheckPendingTxsHalting(s: State, receipt: Receipt): State
  {
    if receipt.Reverted? then s.(status := Exited(PongReverted)) else CheckPendingTxs(s, receipt)
  }

  /** `send_pong_call` on each hash in turn. */
  function SendAll(s: State, hs: seq<Hex>, cfg: Config): State
    decreases |hs|
  {
    if hs == [] then s else SendPongCall(SendAll(s, hs[..|hs| - 1], cfg), Last(hs), cfg)
  }

  /** One iteration of the `run` loop as written: forward the new ping
      events, poll the in-flight pong, then drain one queued hash. A process
      that recovery ended never reaches the loop, so nothing happens then. */
  function Step(s: State, newPings: seq<Hex>, receipt: Receipt, cfg: Config): State
  {
    if s.status.Exited? then s
    else
      var s1 := SendAll(s, newPings, cfg);
      var s2 := if s1.pendingPongTx.Some? then CheckPendingTxs(s1, receipt) else s1;
      ConsumePongQueue(s2, cfg)
  }

  /** One iteration with the intended `check_pending_txs`: once the process
      has exited it does nothing, and a reverted pong exits before the
      queue is drained. */
  function StepHalting(s: State, newPings: seq<Hex>, receipt: Receipt, cfg: Config): State
  {
    if s.status.Exited? then s
    else
      var s1 := SendAll(s, newPings, cfg);
      var s2 := if s1.pendingPongTx.Some? then CheckPendingTxsHalting(s1, receipt) else s1;
      if s2.status.Exited? then s2 else ConsumePongQueue(s2, cfg)
  }

  /** The iterations of the `run` loop with these new pings, while every
      receipt lookup reports the in-flight pong as reverted. */
  function StepsWhileReverted(s: State, batches: seq<seq<Hex>>, cfg: Config): State
    decreases |batches|
  {
    if batches == [] then s
    else Step(StepsWhileReverted(s, batches[..|batches| - 1], cfg), Last(batches), Reverted, cfg)
  }

  function Flatten(batches: seq<seq<Hex>>): seq<Hex>
    decreases |batches|
  {
    if batches == [] then [] else Flatten(batches[..|batches| - 1]) + Last(batches)
  }

  // ---------------------------------------------------------------------
  // send_pong_call

  /** While a pong is in flight the hash only joins the tail of the queue. */
  lemma SendPongCallWhileInFlight(s: State, h: Hex, cfg: Config)
    requires s.pendingPongTx.Some?
    ensures SendPongCall(s, h, cfg) == s.(queue := s.queue + [h], submitted := s.submitted + [h])
  {
  }

  /** With nothing in flight and a backlog, the new hash goes to the tail
      and the oldest queued hash is broadcast: the queue keeps its length. */
  lemma SendPongCallWithBacklog(s: State, h: Hex, cfg: Config)
    requires s.pendingPongTx.None? && s.queue != []
    ensures var r := SendPongCall(s, h, cfg);
      && r.queue == s.queue[1..] + [h]
      && |r.queue| == |s.queue|
      && r.sent == s.sent + [Pong(cfg.broadcast(s.queue[0], s.nonce), s.queue[0], s.nonce)]
      && r.pendingPongTx == Some(cfg.broadcast(s.queue[0], s.nonce))
      && r.pendingPongData == Some(s.queue[0])
      && r.nonce == s.nonce + 1
  {
  }

  /** With nothing in flight and no backlog, the hash is broadcast at once. */
  lemma SendPongCallIdle(s: State, h: Hex, cfg: Config)
    requires s.pendingPongTx.None? && s.queue == []
    ensures var r := SendPongCall(s, h, cfg);
      && r.queue == []
      && r.sent == s.sent + [Pong(cfg.broadcast(h, s.nonce), h, s.nonce)]
      && r.pendingPongTx == Some(cfg.broadcast(h, s.nonce))
      && r.pendingPongData == Some(h)
      && r.nonce == s.nonce + 1
  {
  }

  /** A broadcast happens exactly when nothing is in flight, at most one per
      call, and always leaves a pong in flight. */
  lemma SendPongCallBroadcastsOnlyWhenIdle(s: State, h: Hex, cfg: Config)
    ensures var r := SendPongCall(s, h, cfg);
      && (|r.sent| == |s.sent| + 1 <==> s.pendingPongTx.None?)
      && (|r.sent| == |s.sent| <==> s.pendingPongTx.Some?)
      && r.sent[..|s.sent|] == s.sent
      && r.pendingPongTx.Some?
      && r.nonce == s.nonce + (|r.sent| - |s.sent|)
  {
  }

  lemma SendPongCallPreservesInv(s: State, h: Hex, cfg: Config)
    requires Inv(s)
    ensures Inv(SendPongCall(s, h, cfg))
  {
  }

  // ---------------------------------------------------------------------
  // build_and_send_tx

  /** The pong just broadcast has a nonce above every earlier one and the
      next nonce is one more: nonces never repeat. */
  lemma BuildAndSendTxFreshNonce(s: State, data: Hex, cfg: Config)
    requires Inv(s)
    ensures var r := BuildAndSendTx(s, data, cfg);
      && r.nonce == s.nonce + 1
      && Last(r.sent).nonce == s.nonce
      && (forall i :: 0 <= i < |s.sent| ==> s.sent[i].nonce < Last(r.sent).nonce)
      && r.pendingPongTx == Some(Last(r.sent).id)
      && r.pendingPongData == Some(data)
  {
  }

  // ---------------------------------------------------------------------
  // consume_pong_queue

  /** Draining does nothing while a pong is in flight or the queue is empty;
      otherwise it broadcasts exactly the queue head. */
  lemma ConsumePongQueueSpec(s: State, cfg: Config)
    ensures var r := ConsumePongQueue(s, cfg);
      && (s.pendingPongTx.Some? || s.queue == [] ==> r == s)
      && (s.pendingPongTx.None? && s.queue != [] ==>
            && r.queue == s.queue[1..]
            && r.sent == s.sent + [Pong(cfg.broadcast(s.queue[0], s.nonce), s.queue[0], s.nonce)]
            && r.nonce == s.nonce + 1
            && r.submitted == s.submitted)
  {
  }

  lemma ConsumePongQueuePreservesInv(s: State, cfg: Config)
    requires Inv(s)
    ensures Inv(ConsumePongQueue(s, cfg))
  {
  }

  // ---------------------------------------------------------------------
  // check_pending_txs

  /** A successful receipt clears only the in-flight id; a reverted
      receipt, no receipt or a lookup error changes nothing. */
  lemma CheckPendingTxsSpec(s: State, receipt: Receipt)
    ensures var r := CheckPendingTxs(s, receipt);
      && (receipt.Succeeded? ==>
            && r.pendingPongTx.None?
            && r.nonce == s.nonce && r.queue == s.queue && r.pendingPongData == s.pendingPongData
            && r.status == s.status && r.sent == s.sent)
      && (!receipt.Succeeded? ==> r == s)
  {
  }

  lemma CheckPendingTxsPreservesInv(s: State, receipt: Receipt)
    requires Inv(s)
    ensures Inv(CheckPendingTxs(s, receipt)) && Inv(CheckPendingTxsHalting(s, receipt))
  {
  }

  /** Once confirmed, nothing broadcast is in flight any more. */
  lemma ConfirmedLeavesNothingInFlight(s: State)
    requires Inv(s) && s.pendingPongTx.Some?
    ensures var r := CheckPendingTxs(s, Succeeded);
      r.confirmed == |r.sent| && r.pendingPongTx.None?
  {
  }

  // ---------------------------------------------------------------------
  // Several calls of send_pong_call

  lemma {:induction false} SendAllPreservesInv(s: State, hs: seq<Hex>, cfg: Config)
    requires Inv(s)
    ensures Inv(SendAll(s, hs, cfg))
    decreases |hs|
  {
    if hs != [] {
      SendAllPreservesInv(s, hs[..|hs| - 1], cfg);
      SendPongCallPreservesInv(SendAll(s, hs[..|hs| - 1], cfg), Last(hs), cfg);
    }
  }

  /** Every hash handed over is recorded once, in order; the resume point
      and the status are untouched; the nonce grows by the number of
      broadcasts and earlier broadcasts are kept. */
  lemma {:induction false} SendAllSubmits(s: State, hs: seq<Hex>, cfg: Config)
    ensures var r := SendAll(s, hs, cfg);
      && r.submitted == s.submitted + hs
      && r.startingBlock == s.startingBlock
      && r.status == s.status
      && r.confirmed == s.confirmed
      && |s.sent| <= |r.sent| && r.sent[..|s.sent|] == s.sent
      && r.nonce == s.nonce + (|r.sent| - |s.sent|)
    decreases |hs|
  {
    if hs != [] {
      var init := hs[..|hs| - 1];
      SendAllSubmits(s, init, cfg);
      var m := SendAll(s, init, cfg);
      SendPongCallBroadcastsOnlyWhenIdle(m, Last(hs), cfg);
      assert init + [Last(hs)] == hs;
      var r := SendAll(s, hs, cfg);
      assert r.sent[..|s.sent|] == r.sent[..|m.sent|][..|s.sent|];
    }
  }

  /** While a pong is in flight every hash handed over only joins the
      queue, in order, and nothing else changes. */
  lemma {:induction false} SendAllWhileInFlight(s: State, hs: seq<Hex>, cfg: Config)
    requires s.pendingPongTx.Some?
    ensures SendAll(s, hs, cfg) == s.(queue := s.queue + hs, submitted := s.submitted + hs)
    decreases |hs|
  {
    if hs != [] {
      var init := hs[..|hs| - 1];
      SendAllWhileInFlight(s, init, cfg);
      assert init + [Last(hs)] == hs;
      assert s.queue + init + [Last(hs)] == s.queue + hs;
      assert s.submitted + init + [Last(hs)] == s.submitted + hs;
    }
  }

  // ---------------------------------------------------------------------
  // One run iteration

  lemma StepPreservesInv(s: State, newPings: seq<Hex>, receipt: Receipt, cfg: Config)
    requires Inv(s)
    ensures Inv(Step(s, newPings, receipt, cfg)) && Inv(StepHalting(s, newPings, receipt, cfg))
  {
    SendAllPreservesInv(s, newPings, cfg);
    var s1 := SendAll(s, newPings, cfg);
    CheckPendingTxsPreservesInv(s1, receipt);
    ConsumePongQueuePreservesInv(if s1.pendingPongTx.Some? then CheckPendingTxs(s1, receipt) else s1, cfg);
    ConsumePongQueuePreservesInv(if s1.pendingPongTx.Some? then CheckPendingTxsHalting(s1, receipt) else s1, cfg);
  }

  /** After any iteration at most one broadcast pong is unconfirmed. */
  lemma StepKeepsOneInFlight(s: State, newPings: seq<Hex>, receipt: Receipt, cfg: Config)
    requires Inv(s)
    ensures var r := Step(s, newPings, receipt, cfg);
      r.confirmed <= |r.sent| <= r.confirmed + 1
  {
    StepPreservesInv(s, newPings, receipt, cfg);
  }

  /** As written, a reverted pong does not stop the bot: the iteration queues
      the new pings, broadcasts nothing and leaves the reverted pong in
      flight. */
  lemma {:induction false} RevertedPongStalls(s: State, newPings: seq<Hex>, cfg: Config)
    requires s.status.Running? && s.pendingPongTx.Some?
    ensures Step(s, newPings, Reverted, cfg) == s.(queue := s.queue + newPings, submitted := s.submitted + newPings)
  {
    SendAllWhileInFlight(s, newPings, cfg);
  }

  /** As written, while the receipt stays reverted the bot keeps running and
      queuing every new ping, and never broadcasts again. */
  lemma {:induction false} RevertedStallsForever(s: State, batches: seq<seq<Hex>>, cfg: Config)
    requires s.status.Running? && s.pendingPongTx.Some?
    ensures StepsWhileReverted(s, batches, cfg)
      == s.(queue := s.queue + Flatten(batches), submitted := s.submitted + Flatten(batches))
    decreases |batches|
  {
    if batches != [] {
      var init := batches[..|batches| - 1];
      RevertedStallsForever(s, init, cfg);
      var m := StepsWhileReverted(s, init, cfg);
      RevertedPongStalls(m, Last(batches), cfg);
      assert s.queue + Flatten(init) + Last(batches) == s.queue + Flatten(batches);
      assert s.submitted + Flatten(init) + Last(batches) == s.submitted + Flatten(batches);
    }
  }

  /** The two readings part after a revert: as written the bot is still
      running two iterations later and has queued the next ping; with the
      intended exit it stopped and the ping was never taken. */
  lemma {:induction false} RevertedExitIsSwallowed(s: State, p: Hex, cfg: Config)
    requires s.status.Running? && s.pendingPongTx.Some?
    ensures var w := Step(Step(s, [], Reverted, cfg), [p], NoReceipt, cfg);
      && w.status == Running && w.queue == s.queue + [p] && w.sent == s.sent
    ensures var h := StepHalting(StepHalting(s, [], Reverted, cfg), [p], NoReceipt, cfg);
      && h.status == Exited(PongReverted) && h.queue == s.queue && h.sent == s.sent
  {
    RevertedPongStalls(s, [], cfg);
    var w1 := Step(s, [], Reverted, cfg);
    SendAllWhileInFlight(w1, [p], cfg);
    SendAllWhileInFlight(s, [], cfg);
  }

  /** A stopped process does nothing, whatever it is given: as written
      (after recovery ended it) and with the intended exit. */
  lemma StepAfterExitIsIdle(s: State, newPings: seq<Hex>, receipt: Receipt, cfg: Config)
    requires s.status.Exited?
    ensures Step(s, newPings, receipt, cfg) == s
    ensures StepHalting(s, newPings, receipt, cfg) == s
  {
  }

  /** With the intended exit, a reverted pong stops the process in the same
      iteration: the new pings are queued and nothing is broadcast. */
  lemma {:induction false} RevertedPongHalts(s: State, newPings: seq<Hex>, cfg: Config)
    requires s.status.Running? && s.pendingPongTx.Some?
    ensures var r := StepHalting(s, newPings, Reverted, cfg);
      && r.status == Exited(PongReverted)
      && r.sent == s.sent
      && r.nonce == s.nonce
      && r.queue == s.queue + newPings
  {
    SendAllWhileInFlight(s, newPings, cfg);
  }

  /** Two pings arrive in one block on a fresh bot: the first is answered
      with the starting nonce and the second waits; once the first is
      confirmed the next step answers the second with the next nonce. */
  lemma TwoPingsInOneBlock(a: Hex, b: Hex, n: nat, block: int, cfg: Config)
    ensures var s1 := Step(Initial(n, block), [a, b], NoReceipt, cfg);
      && s1.sent == [Pong(cfg.broadcast(a, n), a, n)]
      && s1.queue == [b]
      && var s2 := Step(s1, [], Succeeded, cfg);
      && s2.sent == [Pong(cfg.broadcast(a, n), a, n), Pong(cfg.broadcast(b, n + 1), b, n + 1)]
      && s2.queue == []
      && s2.pendingPongTx == Some(cfg.broadcast(b, n + 1))
  {
    var s0 := Initial(n, block);
    assert [a, b][..1] == [a];
    assert [a][..0] == [];
    assert SendAll(s0, [a], cfg) == SendPongCall(s0, a, cfg);
  }
}
