/** The `Bot` object: its fields are updated in place by each operation,
    and each method is proved to move the object from `old(State())` to the
    state the corresponding function of `Engine` or `Recovery` gives. */
module BotRuntime {
  import opened Ledger
  import opened Calldata
  import Engine
  import Recovery

  class Bot {
    const config: Config
    var queue: seq<Hex>
    var pendingPongTx: Option<Hex>
    var pendingPongData: Option<Hex>
    var nonce: nat
    var startingBlock: int
    /** Stands for an uncaught lookup error that ends the process. */
    var status: Engine.Status
    // Histories the properties speak about; the bot keeps none of them.
    ghost var sent: seq<Engine.Pong>
    ghost var submitted: seq<Hex>
    ghost var confirmed: nat

    ghost function State(): Engine.State
      reads this
    {
      Engine.State(queue, pendingPongTx, pendingPongData, nonce, startingBlock, status, sent, submitted, confirmed)
    }

    /** `__init__`: the nonce is the account's transaction count, the resume
        block is configured; nothing is queued or in flight. */
    constructor (config: Config, transactionCount: nat, startingBlock: int)
      ensures this.config == config
      ensures State() == Engine.Initial(transactionCount, startingBlock)
      ensures Engine.Inv(State())
    {
      this.config := config;
      queue := [];
      pendingPongTx := None;
      pendingPongData := None;
      nonce := transactionCount;
      this.startingBlock := startingBlock;
      status := Engine.Running;
      sent := [];
      submitted := [];
      confirmed := 0;
    }

    /** `build_and_send_tx`. */
    method BuildAndSendTx(data: Hex)
      modifies this
      ensures State() == Engine.BuildAndSendTx(old(State()), data, config)
    {
      var id := config.broadcast(data, nonce);
      sent := sent + [Engine.Pong(id, data, nonce)];
      pendingPongTx := Some(id);
      pendingPongData := Some(data);
      nonce := nonce + 1;
    }

    /** `send_pong_call`. */
    method SendPongCall(data: Hex)
      modifies this
      ensures State() == Engine.SendPongCall(old(State()), data, config)
      ensures Engine.Inv(old(State())) ==> Engine.Inv(State())
    {
      ghost var s := State();
      if Engine.Inv(s) {
        Engine.SendPongCallPreservesInv(s, data, config);
      }
      submitted := submitted + [data];
      if pendingPongTx.Some? {
        queue := queue + [data];
        return;
      }
      var next := data;
      if queue != [] {
        queue := queue + [data];
        next := queue[0];
        queue := queue[1..];
      }
      BuildAndSendTx(next);
    }

    /** `send_pong_call` on each hash in turn: the loops of
        `process_new_entries`, `get_missing_ping_txs_at_block` and `recover`. */
    method SendPongCalls(hashes: seq<Hex>)
      modifies this
      ensures State() == Engine.SendAll(old(State()), hashes, config)
      ensures Engine.Inv(old(State())) ==> Engine.Inv(State())
    {
      for i := 0 to |hashes|
        invariant State() == Engine.SendAll(old(State()), hashes[..i], config)
        invariant Engine.Inv(old(State())) ==> Engine.Inv(State())
      {
        assert hashes[..i + 1][..i] == hashes[..i];
        SendPongCall(hashes[i]);
      }
      assert hashes[..|hashes|] == hashes;
    }

    /** `check_pending_txs` for one outcome of the receipt lookup, as
        written: only a successful receipt changes anything. */
    method CheckPendingTxs(receipt: Receipt)
      modifies this
      ensures State() == Engine.CheckPendingTxs(old(State()), receipt)
    {
      match receipt {
        case Succeeded =>
          if |sent| > confirmed {
            confirmed := confirmed + 1;
          }
          pendingPongTx := None;
        case Reverted =>
          // `sys.exit(1)` is caught by the bare `except:`; nothing changes.
        case NoReceipt =>
        case LookupError =>
      }
    }

    /** `consume_pong_queue`. */
    method ConsumePongQueue()
      modifies this
      ensures State() == Engine.ConsumePongQueue(old(State()), config)
    {
      if pendingPongTx.None? && queue != [] {
        var next := queue[0];
        queue := queue[1..];
        BuildAndSendTx(next);
      }
    }

    /** One iteration of the `run` loop. */
    method Step(newPings: seq<Hex>, receipt: Receipt)
      modifies this
      ensures State() == Engine.Step(old(State()), newPings, receipt, config)
      ensures Engine.Inv(old(State())) ==> Engine.Inv(State())
    {
      ghost var s := State();
      if Engine.Inv(s) {
        Engine.StepPreservesInv(s, newPings, receipt, config);
      }
      if status.Exited? {
        return;
      }
      SendPongCalls(newPings);
      if pendingPongTx.Some? {
        CheckPendingTxs(receipt);
      }
      ConsumePongQueue();
    }

    /** `get_missing_ping_txs_at_block`; `found` is false when the block
        cannot be read, which ends the process. */
    method GetMissingPingTxsAtBlock(block: int, pongInputs: seq<Hex>, view: LedgerView) returns (found: bool)
      modifies this
      ensures found == (block in view.blocks)
      ensures State() == Recovery.MissingAtBlock(old(State()), block, pongInputs, view, config)
    {
      if block !in view.blocks {
        status := Engine.Exited(Engine.BlockNotFound(block));
        return false;
      }
      var missing := MissingPings(view.blocks[block], PongDatas(pongInputs), config);
      SendPongCalls(missing);
      return true;
    }

    /** `recover_pending_pong_txs`. */
    method RecoverPendingPongTxs(pending: seq<Tx>, view: LedgerView)
      requires pending != []
      modifies this
      ensures State() == Recovery.RecoverPendingPongTxs(old(State()), pending, view, config)
    {
      var data: Hex := "";
      for i := 0 to |pending|
        invariant i == 0 ==> State() == old(State())
        invariant i > 0 ==> State() == Recovery.AdoptPending(old(State()), pending[..i])
        invariant i > 0 ==> data == pending[i - 1].input
      {
        var tx := pending[i];
        pendingPongTx := Some(tx.hash);
        data := tx.input;
        pendingPongData := Some(DecodePongInput(data));
        nonce := tx.nonce + 1;
      }
      assert pending[..|pending|] == pending;
      var key := DecodePongInput(data);
      if key !in view.blockOf {
        status := Engine.Exited(Engine.TxNotFound(key));
        return;
      }
      var block := view.blockOf[key];
      startingBlock := block + 1;
      var pongs := PastPongTxs(view.pongLog, startingBlock, config.sender);
      var _ := GetMissingPingTxsAtBlock(block, Inputs(pongs) + [data], view);
    }

    /** `recover_from_last_pong`. */
    method RecoverFromLastPong(pongs: seq<Tx>, view: LedgerView)
      requires pongs != []
      modifies this
      ensures State() == Recovery.RecoverFromLastPong(old(State()), pongs, view, config)
    {
      var key := DecodePongInput(pongs[|pongs| - 1].input);
      if key !in view.blockOf {
        status := Engine.Exited(Engine.TxNotFound(key));
        return;
      }
      var block := view.blockOf[key];
      var found := GetMissingPingTxsAtBlock(block, Inputs(pongs), view);
      if !found {
        return;
      }
      startingBlock := block + 1;
    }

    /** `recover`. It runs once, before the bot has broadcast anything. */
    method Recover(view: LedgerView)
      requires Engine.Inv(State()) && sent == []
      modifies this
      ensures State() == Recovery.Recover(old(State()), view, config)
      ensures Engine.Inv(State())
    {
      ghost var s := State();
      Recovery.RecoverPreservesInv(s, view, config);
      var pending := PendingPongTxs(view.pendingBlock, config);
      if pending != [] {
        RecoverPendingPongTxs(pending, view);
      } else {
        var pongs := PastPongTxs(view.pongLog, startingBlock, config.sender);
        if pongs != [] {
          RecoverFromLastPong(pongs, view);
        }
      }
      if status.Exited? {
        return;
      }
      SendPongCalls(PingEventsFrom(view.pingLog, startingBlock));
    }

    /** The start of `run`: recover unless the chain head is the resume block. */
    method Start(height: int, view: LedgerView)
      requires Engine.Inv(State()) && sent == []
      modifies this
      ensures State() == Recovery.Start(old(State()), height, view, config)
      ensures Engine.Inv(State())
    {
      if height != startingBlock {
        Recover(view);
      }
    }
  }
}
