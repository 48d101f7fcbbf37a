# pingpongbot response engine, in Dafny

This project models the response engine of the ping/pong bot (`bot.py`, class
`Bot`). The bot watches a contract for `Ping` events. For each one it sends a
`pong(bytes32)` transaction that carries the ping's transaction hash. It allows
only one pong in flight at a time. Pings that arrive while a pong is in flight
wait in a FIFO queue. Nonces are assigned one by one. After a restart the bot
rebuilds its state from the chain.

Modules:

- `Ledger` (ledger.dfy): the chain data the bot reads, supplied as plain values.
  This covers transactions, the `'pending'` block, the Pong and Ping event logs,
  hash to block lookups and block contents. It also holds the bot's
  configuration. Broadcasting a pong is the function `Config.broadcast`, which
  maps (ping hash, nonce) to a transaction id. The filters that
  `get_pending_pong_txs` and `get_past_pong_txs` apply live here too.
- `Calldata` (calldata.dfy): decoding of pong call data as `'0x' + input.hex()[10:]`.
  Its inverse is the ABI encoding: the 4-byte function selector (Ethereum
  Contract ABI Specification, section "Function Selector") followed by the
  hash. This module also holds the per-block diff that finds pings without a
  pong.
- `Engine` (engine.dfy): the bot's state as a value, and the operations
  `send_pong_call`, `build_and_send_tx`, `consume_pong_queue`,
  `check_pending_txs` and one iteration of the `run` loop as functions. It
  also holds the engine invariant `Inv` and the lemmas about these operations.
- `Recovery` (recovery.dfy): `recover`, `recover_pending_pong_txs`,
  `recover_from_last_pong` and `get_missing_ping_txs_at_block` as functions,
  with lemmas for each recovery path.
- `BotRuntime` (bot.dfy): the `Bot` class. Its fields `queue`,
  `pending_pong_tx`, `pending_pong_data`, `nonce` and `starting_block` are
  updated in place. Each method is proved to turn `old(State())` into the
  state given by the matching `Engine` or `Recovery` function.

Some behaviour is modelled explicitly:

- A reverted pong does not end the process. The `sys.exit(1)` in
  `check_pending_txs` raises `SystemExit` inside the `try`, and the bare
  `except:` catches it. The bot logs `[PENDING]` and keeps running, with the
  reverted pong still recorded as in flight. `Engine.CheckPendingTxs`,
  `Engine.Step` and the `Bot` class follow this code as written. The exit the
  code evidently intends is `Engine.CheckPendingTxsHalting` and
  `Engine.StepHalting`, which set the status `Exited(PongReverted)`. See
  "## Findings".
- During recovery, a failed `get_transaction` or `get_block` lookup raises an
  exception that nothing catches, so the process ends. This becomes
  `Exited(TxNotFound(h))` or `Exited(BlockNotFound(n))`.
- A process that has ended runs no further iteration. As written this
  happens only when recovery fails, since the loop at bot.py:209-213 is never
  reached; with the intended exit it also follows a reverted pong.

The invariant `Engine.Inv` ties the bot's fields to three histories that the
bot does not itself keep:

- `sent`: every broadcast pong.
- `submitted`: every hash handed to `send_pong_call`.
- `confirmed`: how many broadcast pongs have been confirmed.

`Inv` states four things:

- The hashes of the sent pongs followed by the queue equal exactly what was
  submitted. This means FIFO order, with no hash lost and none duplicated.
- Nonces of sent pongs strictly increase and stay below `nonce`.
- At most one broadcast pong is unconfirmed.
- That unconfirmed pong is the one in `pending_pong_tx`.

Notes on the source's behaviour:

- `recover_from_last_pong` does not recompute the nonce. The nonce stays the
  account's transaction count read at start-up.
- When a ping arrives with nothing in flight but a non-empty queue,
  `send_pong_call` does not send the new ping. It appends the ping to the queue
  and broadcasts the queue head.
- Both recovery paths run the block-level diff.

## Model

| member | source | states |
|---|---|---|
| Ledger.PendingPongTxs | bot.py:124-134 | the pending pongs are exactly the pending-block transactions from the bot to the contract, in block order (a subsequence of the block) |
| Ledger.LastPendingPong | bot.py:78-83 | the pong recovery adopts is the last transaction of the pending block sent by the bot to the contract |
| Ledger.PastPongTxs | bot.py:137-146 | the past pongs are exactly the bot's own transactions among Pong events from the given block on, in log order (a subsequence of the log) |
| Ledger.LastPastPong | bot.py:116 | the pong `recover_from_last_pong` decodes is the transaction of the bot's last Pong event from the given block on |
| Ledger.PingEventsFrom | bot.py:163-167 | a hash is recovered iff some Ping event from the resume block on carries it, and the recovered hashes follow log order (a subsequence of the log's hashes) |
| Calldata.DecodeEncode | bot.py:102 | decoding the input of a `pong(hash)` call, whatever its selector, gives back `hash` |
| Calldata.PongDatasOfEncoded | bot.py:102 | decoding a list of encoded pongs gives exactly the answered ping hashes, in order |
| Calldata.MissingPings | bot.py:94-104 | a hash is missing iff some transaction of the block is sent to the contract by someone other than the bot, has that hash, and the hash is not among the decoded pong inputs |
| Calldata.MissingPingsInBlockOrder | bot.py:98-108 | the missing hashes are a subsequence of the block's transaction hashes, so they are submitted in block order |
| Calldata.MissingPingsOnce | bot.py:103-108 | if the block's hashes are distinct, each missing hash is submitted once |
| Engine.SendPongCallWhileInFlight | bot.py:47-51 | with a pong in flight, the hash joins the tail of the queue and nothing else changes (no broadcast, same nonce and in-flight pong) |
| Engine.SendPongCallWithBacklog | bot.py:53-58 | with nothing in flight and a backlog, the new hash goes to the tail and the head is broadcast; the queue keeps its length and the nonce rises by one |
| Engine.SendPongCallIdle | bot.py:47-58 | with nothing in flight and an empty queue, the hash itself is broadcast with the current nonce |
| Engine.SendPongCallBroadcastsOnlyWhenIdle | bot.py:47-58 | a broadcast happens iff nothing was in flight, at most one per call; a pong is always in flight afterwards; the nonce rises by the number of broadcasts |
| Engine.SendPongCallPreservesInv | bot.py:47-58 | FIFO order, no lost or duplicated hash, increasing nonces and at most one unconfirmed pong are preserved |
| Engine.BuildAndSendTxFreshNonce | bot.py:61-72 | the broadcast pong becomes the in-flight one with the sent hash, its nonce exceeds every earlier pong's, and the nonce rises by exactly one |
| Engine.ConsumePongQueueSpec | bot.py:197-199 | no change while a pong is in flight or the queue is empty; otherwise exactly the queue head is popped and broadcast |
| Engine.ConsumePongQueuePreservesInv | bot.py:197-199 | draining the queue keeps the engine invariant |
| Engine.CheckPendingTxsSpec | bot.py:179-194 | a success receipt clears only the in-flight id; a reverted receipt (its exit is caught), an absent receipt or a lookup error changes nothing |
| Engine.CheckPendingTxsPreservesInv | bot.py:179-194 | polling the receipt keeps the engine invariant, as written and with the intended exit |
| Engine.ConfirmedLeavesNothingInFlight | bot.py:183-186 | after a success receipt, every broadcast pong is confirmed |
| Engine.SendAllPreservesInv | bot.py:172-176 | handing over a sequence of pings keeps the engine invariant |
| Engine.SendAllSubmits | bot.py:172-176 | every hash handed over is recorded once and in order; resume block and status are untouched; earlier broadcasts are kept; the nonce rises by the number of new broadcasts |
| Engine.SendAllWhileInFlight | bot.py:47-51 | with a pong in flight, a sequence of hashes only joins the queue, in order |
| Engine.StepPreservesInv | bot.py:209-213 | one run iteration keeps the engine invariant, as written and with the intended exit |
| Engine.RevertedPongStalls | bot.py:188-194 | as written, an iteration with a pong in flight and a reverted receipt only queues the new pings: no broadcast, still running, same in-flight pong |
| Engine.RevertedStallsForever | bot.py:209-213 | as written, while the receipt stays reverted every iteration keeps running, queues every new ping in order and broadcasts nothing |
| Engine.RevertedExitIsSwallowed | bot.py:188-194 | after a revert the code as written is still running two iterations later with the next ping queued, while the intended exit has stopped without taking it |
| Engine.StepAfterExitIsIdle | bot.py:202-213 | once the process has ended, an iteration changes nothing and sends nothing, both as written and with the intended exit |
| Engine.RevertedPongHalts | bot.py:188-190 | with the intended exit, a reverted receipt ends the process in that iteration, with no broadcast and the new pings left queued |
| Engine.StepKeepsOneInFlight | bot.py:210-213 | after any iteration at most one broadcast pong is unconfirmed |
| Engine.TwoPingsInOneBlock | bot.py:202-213 | two pings on a fresh bot: the first is sent with the starting nonce and the second queued; after confirmation the second is sent with the next nonce |
| Recovery.RecoverPendingPath | bot.py:75-91 | the pending path wins: the last pending pong is adopted as in flight, the nonce is its nonce + 1 and the resume block is the answered ping's block + 1; the block's missing pings and then later Ping events only join the queue, and the adopted ping is not among the block's missing pings; on a ledger that puts each Ping event in its transaction's block, it is not among the later Ping events either |
| Recovery.RecoverLastPongPath | bot.py:113-121 | with no pending pong, the missing pings of the last answered ping's block and then later Ping events are submitted, and the resume block becomes that block + 1 |
| Recovery.RecoverFirstRun | bot.py:155-167 | with neither pending nor past pongs, the resume block is unchanged and every Ping event from it on is submitted in order |
| Recovery.RecoverPendingLookupFails | bot.py:85-86 | if the answered ping cannot be found, the process ends before anything is submitted |
| Recovery.RecoverEndsOnLookupFailure | bot.py:75-120 | recovery ends the process exactly when a `get_transaction` (bot.py:85, 117) or `get_block` (bot.py:97) lookup fails, on either path; it then submits no missing ping and no Ping event and broadcasts nothing |
| Recovery.RecoveryExitIsFinal | bot.py:202-213 | when a recovery lookup fails, the run loop after it queues and broadcasts nothing |
| Recovery.RecoverPreservesInv | bot.py:149-169 | recovery on a bot that has broadcast nothing yet establishes the engine invariant |
| Recovery.StartAtResumePoint | bot.py:202-205 | when the chain head equals the resume block, `run` skips recovery |
| BotRuntime.Bot.constructor | bot.py:23-44 | a new bot has an empty queue, nothing in flight, the account's nonce, and satisfies the invariant |
| BotRuntime.Bot.BuildAndSendTx | bot.py:61-72 | the fields become those of `Engine.BuildAndSendTx` |
| BotRuntime.Bot.SendPongCall | bot.py:47-58 | the fields become those of `Engine.SendPongCall`, and the invariant is kept |
| BotRuntime.Bot.SendPongCalls | bot.py:172-176 | calling `send_pong_call` on each hash in turn gives `Engine.SendAll` and keeps the invariant |
| BotRuntime.Bot.CheckPendingTxs | bot.py:179-194 | the fields become those of `Engine.CheckPendingTxs` for the receipt outcome: only a success receipt changes them |
| BotRuntime.Bot.ConsumePongQueue | bot.py:197-199 | the fields become those of `Engine.ConsumePongQueue` |
| BotRuntime.Bot.Step | bot.py:209-213 | one loop iteration as written gives `Engine.Step` (nothing once the process has ended) and keeps the invariant |
| BotRuntime.Bot.GetMissingPingTxsAtBlock | bot.py:94-110 | submits the block's missing pings as `Recovery.MissingAtBlock`; reports whether the block could be read |
| BotRuntime.Bot.RecoverPendingPongTxs | bot.py:75-91 | the overwrite loop adopts the last pending pong; the result is `Recovery.RecoverPendingPongTxs` |
| BotRuntime.Bot.RecoverFromLastPong | bot.py:113-121 | the fields become those of `Recovery.RecoverFromLastPong` |
| BotRuntime.Bot.Recover | bot.py:149-169 | the fields become those of `Recovery.Recover`, and the invariant holds afterwards |
| BotRuntime.Bot.Start | bot.py:202-205 | recovery runs unless the chain head is the resume block |

## Left out

- Environment and `.env` configuration, the `Web3(MultiProvider(...))` construction, ABI file loading and address derivation (bot.py:23-40). These are bootstrap and library calls. The constructor takes the account's transaction count and the starting block as parameters.
- Transaction building, gas price, signing and `send_raw_transaction` (bot.py:63-69). These are foreign library calls. They are the parameter `Config.broadcast`, which returns the transaction id.
- The function selector is not computed, because Keccak-256 is not modelled. It is a parameter of `Calldata.EncodePongCall` (8 hex digits).
- `.hex()` is taken to print `0x` followed by the digits, as the slicing at bot.py:82 and bot.py:102 assumes.
- `recover_from_last_pong` passes the hash to `get_transaction` without its `0x`, and web3 accepts it either way. The model looks the hash up with the prefix.
- Web3 filter and log semantics (bot.py:128, 140, 163-164, 173, 208) are not modelled, because they belong to the client library. Their results are input sequences: the fields of `LedgerView` and the `newPings` of each step. That `get_new_entries` delivers each event once is assumed of that input.
- Logging, the endless `while True` loop and `time.sleep(12)` (bot.py:209-216) are not modelled. They are output and timing. One iteration is `Engine.Step` / `Bot.Step`.
- Exceptions from RPC calls other than the recovery lookups are not modelled: the `'pending'` block query, `get_logs`, `get_transaction` on each ping of a block (bot.py:100), the broadcast and the chain-head query. Each ends the process and the in-memory state is lost, including changes already made: after bot.py:80-87 the adopted pong and nonce, and in `consume_pong_queue` the hash `queue.get()` removed before `send_raw_transaction` raised. The next start recovers from the chain.
- Recovery.RecoverPreservesInv, Bot.Recover: they require that nothing has been broadcast yet, because the source calls `recover` only once, at start-up, before any send.
- Liveness is not modelled, because the model has no notion of time or of the ledger's future. This covers both "every observed ping is eventually answered" and the idempotence of a repeated recovery.
- checker.py and src/index.ts are not part of this model. The first is an audit script made of RPC reads. The second only logs events.

## Findings

| source | as written | input that shows it | evidently intended | confidence | as-written member | corrected member |
|---|---|---|---|---|---|---|
| bot.py:190, bot.py:193 | `sys.exit(1)` raises `SystemExit` inside the `try`; the bare `except:` catches it, logs `[PENDING]` and the bot runs on with the reverted pong in flight, never broadcasting again | a pending pong whose receipt has a false status, then any later ping | the process ends on a reverted pong | high, not executed | Engine.RevertedExitIsSwallowed | Engine.RevertedPongHalts |
