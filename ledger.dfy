/** The ledger as the bot sees it: transactions, event logs and the
    configuration of the sending identity. Every read the bot makes of the
    chain is supplied here as plain data. */
module Ledger {

  /** A hex string as web3 prints it, `0x` followed by hex digits. */
  type Hex = string

  type Address = string

  datatype Option<+T> = None | Some(value: T)

  /** A transaction as returned by `get_transaction` or inside a block. */
  datatype Tx = Tx(sender: Address, to: Address, hash: Hex, input: Hex, nonce: nat)

  /** An event log entry: the transaction that emitted it and its block. */
  datatype Logged = Logged(tx: Tx, block: int)

  /** Outcome of `get_transaction_receipt` for the in-flight pong. */
  datatype Receipt =
    | NoReceipt      // the call returned nothing: still pending
    | Succeeded      // receipt with a true status
    | Reverted       // receipt with a false status
    | LookupError    // the call raised (TransactionNotFound)

  /** Everything recovery reads from the chain.
      - pendingBlock: the transactions of the `'pending'` block
      - pongLog: the contract's Pong events, in log order
      - pingLog: the contract's Ping events, in log order
      - blockOf: the block number `get_transaction` reports for a hash
      - blocks: the transaction list `get_block(n, True)` returns */
  datatype LedgerView = LedgerView(
    pendingBlock: seq<Tx>,
    pongLog: seq<Logged>,
    pingLog: seq<Logged>,
    blockOf: map<Hex, int>,
    blocks: map<int, seq<Tx>>)

  /** The bot's fixed configuration. `broadcast` stands for building,
      signing and sending the pong transaction: given the ping hash and the
      nonce it returns the id of the broadcast transaction. */
  datatype Config = Config(contract: Address, sender: Address, broadcast: (Hex, nat) -> Hex)

  /** A transaction the bot itself sent to the contract. */
  predicate IsOwnPong(t: Tx, cfg: Config)
  {
    t.sender == cfg.sender && t.to == cfg.contract
  }

  /** `a` is `b` with some elements left out, the rest in the same order. */
  predicate IsSubsequence<T(==)>(a: seq<T>, b: seq<T>)
    decreases |b|
  {
    if a == [] then true
    else if b == [] then false
    else (a[0] == b[0] && IsSubsequence(a[1..], b[1..])) || IsSubsequence(a, b[1..])
  }

  /** The pending transactions from the bot to the contract, in block order. */
  function PendingPongTxs(txs: seq<Tx>, cfg: Config): (r: seq<Tx>)
    ensures forall t :: t in r <==> t in txs && IsOwnPong(t, cfg)
    ensures IsSubsequence(r, txs)
  {
    if txs == [] then []
    else
      var rest := PendingPongTxs(txs[1..], cfg);
      if IsOwnPong(txs[0], cfg) then [txs[0]] + rest else rest
  }

  /** The pong recovery adopts, the last of the pending pongs, is the last
      transaction of the pending block that the bot sent to the contract. */
  lemma {:induction false} LastPendingPong(txs: seq<Tx>, cfg: Config)
    requires PendingPongTxs(txs, cfg) != []
    ensures exists i :: (0 <= i < |txs| && txs[i] == Last(PendingPongTxs(txs, cfg)) && IsOwnPong(txs[i], cfg)
      && forall j :: i < j < |txs| ==> !IsOwnPong(txs[j], cfg))
  {
    var tail := txs[1..];
    var rest := PendingPongTxs(tail, cfg);
    if rest != [] {
      LastPendingPong(tail, cfg);
      var i :| 0 <= i < |tail| && tail[i] == Last(rest) && IsOwnPong(tail[i], cfg)
        && forall j :: i < j < |tail| ==> !IsOwnPong(tail[j], cfg);
      assert txs[i + 1] == tail[i];
      assert forall j :: i + 1 < j < |txs| ==> txs[j] == tail[j - 1];
    } else {
      assert forall j :: 0 < j < |txs| ==> txs[j] in tail;
    }
  }

  /** A Pong event of the bot at or after block `from`. */
  predicate IsOwnPongFrom(e: Logged, from: int, sender: Address)
  {
    e.block >= from && e.tx.sender == sender
  }

  function LoggedTxs(log: seq<Logged>): (r: seq<Tx>)
    ensures |r| == |log|
    ensures forall i :: 0 <= i < |log| ==> r[i] == log[i].tx
  {
    seq(|log|, i requires 0 <= i < |log| => log[i].tx)
  }

  function LoggedHashes(log: seq<Logged>): (r: seq<Hex>)
    ensures |r| == |log|
    ensures forall i :: 0 <= i < |log| ==> r[i] == log[i].tx.hash
  {
    seq(|log|, i requires 0 <= i < |log| => log[i].tx.hash)
  }

  /** The bot's own pong transactions among the Pong events from block
      `from` on, in log order. */
  function PastPongTxs(log: seq<Logged>, from: int, sender: Address): (r: seq<Tx>)
    ensures forall t :: t in r <==> exists e :: e in log && IsOwnPongFrom(e, from, sender) && e.tx == t
    ensures IsSubsequence(r, LoggedTxs(log))
  {
    if log == [] then []
    else
      var rest := PastPongTxs(log[1..], from, sender);
      assert forall e :: e in log <==> e == log[0] || e in log[1..];
      assert LoggedTxs(log)[1..] == LoggedTxs(log[1..]);
      if IsOwnPongFrom(log[0], from, sender) then [log[0].tx] + rest else rest
  }

  /** The last past pong, the one `recover_from_last_pong` decodes, is the
      transaction of the bot's last Pong event from block `from` on. */
  lemma {:induction false} LastPastPong(log: seq<Logged>, from: int, sender: Address)
    requires PastPongTxs(log, from, sender) != []
    ensures exists i :: (0 <= i < |log| && log[i].tx == Last(PastPongTxs(log, from, sender))
      && IsOwnPongFrom(log[i], from, sender)
      && forall j :: i < j < |log| ==> !IsOwnPongFrom(log[j], from, sender))
  {
    var tail := log[1..];
    var rest := PastPongTxs(tail, from, sender);
    if rest != [] {
      LastPastPong(tail, from, sender);
      var i :| 0 <= i < |tail| && tail[i].tx == Last(rest) && IsOwnPongFrom(tail[i], from, sender)
        && forall j :: i < j < |tail| ==> !IsOwnPongFrom(tail[j], from, sender);
      assert log[i + 1] == tail[i];
      assert forall j :: i + 1 < j < |log| ==> log[j] == tail[j - 1];
    } else {
      forall j | 0 < j < |log|
        ensures !IsOwnPongFrom(log[j], from, sender)
      {
        var e := log[j];
        assert e in tail by { assert tail[j - 1] == e; }
        assert IsOwnPongFrom(e, from, sender) ==> e.tx in rest;
      }
    }
  }

  /** The hashes of the Ping events from block `from` on, in log order. */
  function PingEventsFrom(log: seq<Logged>, from: int): (r: seq<Hex>)
    ensures forall h :: h in r <==> exists e :: e in log && e.block >= from && e.tx.hash == h
    ensures IsSubsequence(r, LoggedHashes(log))
    ensures |r| <= |log|
  {
    if log == [] then []
    else
      var rest := PingEventsFrom(log[1..], from);
      assert forall e :: e in log <==> e == log[0] || e in log[1..];
      assert LoggedHashes(log)[1..] == LoggedHashes(log[1..]);
      if log[0].block >= from then [log[0].tx.hash] + rest else rest
  }

  /** The call data of each transaction. */
  function Inputs(txs: seq<Tx>): (r: seq<Hex>)
    ensures |r| == |txs|
    ensures forall i :: 0 <= i < |txs| ==> r[i] == txs[i].input
  {
    seq(|txs|, i requires 0 <= i < |txs| => txs[i].input)
  }

  function Last<T>(s: seq<T>): T
    requires s != []
  {
    s[|s| - 1]
  }
}
