/** Restart recovery of `Bot`: rebuild the nonce, the in-flight pong and
    the resume block from the chain, and resubmit the pings that were
    missed. Lookups that the chain cannot answer raise in the source and end
    the process; here they set the status to `Exited`. */
module Recovery {
  import opened Ledger
  import opened Calldata
  import opened Engine

  /** `get_missing_ping_txs_at_block`: submit, in block order, the pings of
      block `block` that no pong input answers. */
  function MissingAtBlock(s: State, block: int, pongInputs: seq<Hex>, view: LedgerView, cfg: Config): State
  {
    if block !in view.blocks then s.(status := Exited(BlockNotFound(block)))
    else SendAll(s, MissingPings(view.blocks[block], PongDatas(pongInputs), cfg), cfg)
  }

  /** The loop of `recover_pending_pong_txs`: each pending pong overwrites
      the in-flight fields and the nonce, so the last one wins. */
  function AdoptPending(s: State, pending: seq<Tx>): State
    requires pending != []
  {
    var t := Last(pending);
    s.(pendingPongTx := Some(t.hash), pendingPongData := Some(DecodePongInput(t.input)), nonce := t.nonce + 1)
  }

  /** `recover_pending_pong_txs`. */
  function RecoverPendingPongTxs(s: State, pending: seq<Tx>, view: LedgerView, cfg: Config): State
    requires pending != []
  {
    var s1 := AdoptPending(s, pending);
    var key := DecodePongInput(Last(pending).input);
    if key !in view.blockOf then s1.(status := Exited(TxNotFound(key)))
    else
      var b := view.blockOf[key];
      var s2 := s1.(startingBlock := b + 1);
      var pongs := PastPongTxs(view.pongLog, s2.startingBlock, cfg.sender);
      MissingAtBlock(s2, b, Inputs(pongs) + [Last(pending).input], view, cfg)
  }

  /** `recover_from_last_pong`: diff the block of the ping the last pong
      answered, then resume after that block. The nonce is left alone. */
  function RecoverFromLastPong(s: State, pongs: seq<Tx>, view: LedgerView, cfg: Config): State
    requires pongs != []
  {
    var key := DecodePongInput(Last(pongs).input);
    if key !in view.blockOf then s.(status := Exited(TxNotFound(key)))
    else
      var b := view.blockOf[key];
      var s1 := MissingAtBlock(s, b, Inputs(pongs), view, cfg);
      if b in view.blocks then s1.(startingBlock := b + 1) else s1
  }

  /** `recover`: the pending-pong path, else the last-pong path, else
      nothing; then every Ping event from the resume block on is handed to
      `send_pong_call`. */
  function Recover(s: State, view: LedgerView, cfg: Config): State
  {
    var pending := PendingPongTxs(view.pendingBlock, cfg);
    var s1 :=
      if pending != [] then RecoverPendingPongTxs(s, pending, view, cfg)
      else
        var pongs := PastPongTxs(view.pongLog, s.startingBlock, cfg.sender);
        if pongs != [] then RecoverFromLastPong(s, pongs, view, cfg) else s;
    if s1.status.Exited? then s1
    else SendAll(s1, PingEventsFrom(view.pingLog, s1.startingBlock), cfg)
  }

  /** The start of `run`: recover unless the chain head is the resume block. */
  function Start(s: State, height: int, view: LedgerView, cfg: Config): State
  {
    if height != s.startingBlock then Recover(s, view, cfg) else s
  }

  /** The pings of block `b` not answered by `pongInputs`. */
  function Missing(view: LedgerView, b: int, pongInputs: seq<Hex>, cfg: Config): seq<Hex>
    requires b in view.blocks
  {
    MissingPings(view.blocks[b], PongDatas(pongInputs), cfg)
  }

  // ---------------------------------------------------------------------

  /** Every Ping event the log holds for a known transaction lies in the
      block the chain reports for that transaction. */
  predicate PingsInTheirBlocks(view: LedgerView)
  {
    forall e :: e in view.pingLog && e.tx.hash in view.blockOf ==> e.block == view.blockOf[e.tx.hash]
  }

  /** A ping whose events all lie in block `b` is not among the Ping events
      from block `b + 1` on. */
  lemma LaterPingsSkip(log: seq<Logged>, key: Hex, b: int)
    requires forall e :: e in log && e.tx.hash == key ==> e.block == b
    ensures key !in PingEventsFrom(log, b + 1)
  {
  }

  /** The pending path takes precedence. It adopts the last pending pong as
      in flight, sets the nonce one past its nonce and the resume block one
      past the block of the ping it answers; with a pong in flight, the
      missing pings of that block and then the later Ping events only join
      the queue, in that order, and nothing is broadcast. The adopted ping
      is not among the missing pings, nor, on a ledger that puts each Ping
      event in its transaction's block, among the later events. */
  lemma {:induction false} RecoverPendingPath(s: State, view: LedgerView, cfg: Config)
    requires s.status.Running?
    requires PendingPongTxs(view.pendingBlock, cfg) != []
    requires var t := Last(PendingPongTxs(view.pendingBlock, cfg));
      var key := DecodePongInput(t.input);
      key in view.blockOf && view.blockOf[key] in view.blocks
    ensures var t := Last(PendingPongTxs(view.pendingBlock, cfg));
      var key := DecodePongInput(t.input);
      var b := view.blockOf[key];
      var pongs := PastPongTxs(view.pongLog, b + 1, cfg.sender);
      var missing := Missing(view, b, Inputs(pongs) + [t.input], cfg);
      var r := Recover(s, view, cfg);
      && r.status == Running
      && r.pendingPongTx == Some(t.hash)
      && r.pendingPongData == Some(key)
      && r.nonce == t.nonce + 1
      && r.startingBlock == b + 1
      && r.sent == s.sent
      && r.queue == s.queue + missing + PingEventsFrom(view.pingLog, b + 1)
      && key !in missing
      && (PingsInTheirBlocks(view) ==> key !in PingEventsFrom(view.pingLog, b + 1))
  {
    var pending := PendingPongTxs(view.pendingBlock, cfg);
    var t := Last(pending);
    var key := DecodePongInput(t.input);
    var b := view.blockOf[key];
    var pongs := PastPongTxs(view.pongLog, b + 1, cfg.sender);
    var inputs := Inputs(pongs) + [t.input];
    var missing := Missing(view, b, inputs, cfg);
    var s2 := AdoptPending(s, pending).(startingBlock := b + 1);
    SendAllWhileInFlight(s2, missing, cfg);
    var s3 := SendAll(s2, missing, cfg);
    SendAllWhileInFlight(s3, PingEventsFrom(view.pingLog, b + 1), cfg);
    assert PongDatas(inputs)[|inputs| - 1] == key;
    if PingsInTheirBlocks(view) {
      LaterPingsSkip(view.pingLog, key, b);
    }
  }

  /** Without a pending pong, the last pong of the bot decides: the missing
      pings of the block it answered are submitted, then the later Ping
      events, and the resume block moves past that block. */
  lemma {:induction false} RecoverLastPongPath(s: State, view: LedgerView, cfg: Config)
    requires s.status.Running?
    requires PendingPongTxs(view.pendingBlock, cfg) == []
    requires var pongs := PastPongTxs(view.pongLog, s.startingBlock, cfg.sender);
      pongs != [] &&
      var key := DecodePongInput(Last(pongs).input);
      key in view.blockOf && view.blockOf[key] in view.blocks
    ensures var pongs := PastPongTxs(view.pongLog, s.startingBlock, cfg.sender);
      var b := view.blockOf[DecodePongInput(Last(pongs).input)];
      var r := Recover(s, view, cfg);
      && r.status == Running
      && r.startingBlock == b + 1
      && r.submitted == s.submitted + Missing(view, b, Inputs(pongs), cfg) + PingEventsFrom(view.pingLog, b + 1)
      && r.nonce == s.nonce + (|r.sent| - |s.sent|)
  {
    var pongs := PastPongTxs(view.pongLog, s.startingBlock, cfg.sender);
    var b := view.blockOf[DecodePongInput(Last(pongs).input)];
    var missing := Missing(view, b, Inputs(pongs), cfg);
    SendAllSubmits(s, missing, cfg);
    var s1 := SendAll(s, missing, cfg).(startingBlock := b + 1);
    SendAllSubmits(s1, PingEventsFrom(view.pingLog, b + 1), cfg);
  }

  /** On a first run (no pending pong, no past pong) the resume block is
      unchanged and every Ping event from it on is submitted in order. */
  lemma {:induction false} RecoverFirstRun(s: State, view: LedgerView, cfg: Config)
    requires s.status.Running?
    requires PendingPongTxs(view.pendingBlock, cfg) == []
    requires PastPongTxs(view.pongLog, s.startingBlock, cfg.sender) == []
    ensures var r := Recover(s, view, cfg);
      && r.status == Running
      && r.startingBlock == s.startingBlock
      && r.submitted == s.submitted + PingEventsFrom(view.pingLog, s.startingBlock)
      && r.nonce == s.nonce + (|r.sent| - |s.sent|)
  {
    SendAllSubmits(s, PingEventsFrom(view.pingLog, s.startingBlock), cfg);
  }

  /** If the ping the pending pong answers cannot be found, the process
      ends before anything is submitted. */
  lemma RecoverPendingLookupFails(s: State, view: LedgerView, cfg: Config)
    requires PendingPongTxs(view.pendingBlock, cfg) != []
    requires DecodePongInput(Last(PendingPongTxs(view.pendingBlock, cfg)).input) !in view.blockOf
    ensures var r := Recover(s, view, cfg);
      && r.status == Exited(TxNotFound(DecodePongInput(Last(PendingPongTxs(view.pendingBlock, cfg)).input)))
      && r.submitted == s.submitted
      && r.queue == s.queue
      && r.sent == s.sent
  {
  }

  /** One of the chain lookups recovery makes fails: the ping the adopted
      or last pong answers cannot be found, or its block cannot be read. */
  predicate RecoveryLookupFails(s: State, view: LedgerView, cfg: Config)
  {
    var pending := PendingPongTxs(view.pendingBlock, cfg);
    if pending != [] then
      var key := DecodePongInput(Last(pending).input);
      key !in view.blockOf || view.blockOf[key] !in view.blocks
    else
      var pongs := PastPongTxs(view.pongLog, s.startingBlock, cfg.sender);
      pongs != [] &&
      var key := DecodePongInput(Last(pongs).input);
      key !in view.blockOf || view.blockOf[key] !in view.blocks
  }

  /** Recovery ends the process exactly when one of its lookups fails, on
      either path; it then has submitted nothing, neither a missing ping
      nor a Ping event, and broadcast nothing. */
  lemma {:induction false} RecoverEndsOnLookupFailure(s: State, view: LedgerView, cfg: Config)
    requires s.status.Running?
    ensures var r := Recover(s, view, cfg);
      && (r.status.Exited? <==> RecoveryLookupFails(s, view, cfg))
      && (r.status.Exited? ==> r.submitted == s.submitted && r.sent == s.sent && r.queue == s.queue)
  {
    var pending := PendingPongTxs(view.pendingBlock, cfg);
    var s1 :=
      if pending != [] then RecoverPendingPongTxs(s, pending, view, cfg)
      else
        var pongs := PastPongTxs(view.pongLog, s.startingBlock, cfg.sender);
        if pongs != [] then RecoverFromLastPong(s, pongs, view, cfg) else s;
    if pending != [] {
      var key := DecodePongInput(Last(pending).input);
      if key in view.blockOf && view.blockOf[key] in view.blocks {
        var b := view.blockOf[key];
        var s2 := AdoptPending(s, pending).(startingBlock := b + 1);
        SendAllSubmits(s2, Missing(view, b, Inputs(PastPongTxs(view.pongLog, b + 1, cfg.sender)) + [Last(pending).input], cfg), cfg);
      }
    } else {
      var pongs := PastPongTxs(view.pongLog, s.startingBlock, cfg.sender);
      if pongs != [] {
        var key := DecodePongInput(Last(pongs).input);
        if key in view.blockOf && view.blockOf[key] in view.blocks {
          SendAllSubmits(s, Missing(view, view.blockOf[key], Inputs(pongs), cfg), cfg);
        }
      }
    }
    if s1.status.Running? {
      SendAllSubmits(s1, PingEventsFrom(view.pingLog, s1.startingBlock), cfg);
    }
  }

  /** When recovery ends the process, the run loop that follows it does
      nothing: no ping is queued or broadcast afterwards. */
  lemma {:induction false} RecoveryExitIsFinal(s: State, view: LedgerView, cfg: Config, newPings: seq<Hex>, receipt: Receipt)
    requires s.status.Running?
    requires RecoveryLookupFails(s, view, cfg)
    ensures var r := Recover(s, view, cfg);
      && Step(r, newPings, receipt, cfg) == r
      && r.sent == s.sent && r.queue == s.queue
  {
    RecoverEndsOnLookupFailure(s, view, cfg);
  }

  /** Recovery on a bot that has broadcast nothing yet keeps the engine's
      invariant. */
  lemma {:induction false} RecoverPreservesInv(s: State, view: LedgerView, cfg: Config)
    requires Inv(s) && s.sent == []
    ensures Inv(Recover(s, view, cfg))
  {
    var pending := PendingPongTxs(view.pendingBlock, cfg);
    var s1 :=
      if pending != [] then RecoverPendingPongTxs(s, pending, view, cfg)
      else
        var pongs := PastPongTxs(view.pongLog, s.startingBlock, cfg.sender);
        if pongs != [] then RecoverFromLastPong(s, pongs, view, cfg) else s;
    if pending != [] {
      var key := DecodePongInput(Last(pending).input);
      if key in view.blockOf {
        var b := view.blockOf[key];
        var s2 := AdoptPending(s, pending).(startingBlock := b + 1);
        assert Inv(s2);
        if b in view.blocks {
          SendAllPreservesInv(s2, Missing(view, b, Inputs(PastPongTxs(view.pongLog, b + 1, cfg.sender)) + [Last(pending).input], cfg), cfg);
        }
      }
    } else {
      var pongs := PastPongTxs(view.pongLog, s.startingBlock, cfg.sender);
      if pongs != [] {
        var key := DecodePongInput(Last(pongs).input);
        if key in view.blockOf && view.blockOf[key] in view.blocks {
          SendAllPreservesInv(s, Missing(view, view.blockOf[key], Inputs(pongs), cfg), cfg);
        }
      }
    }
    assert Inv(s1);
    if s1.status.Running? {
      SendAllPreservesInv(s1, PingEventsFrom(view.pingLog, s1.startingBlock), cfg);
    }
  }

  /** At the resume block `run` skips recovery. */
  lemma StartAtResumePoint(s: State, view: LedgerView, cfg: Config)
    ensures Start(s, s.startingBlock, view, cfg) == s
  {
  }
}
