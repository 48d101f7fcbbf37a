/** Pong call data and the per-block diff of pings against pongs.

    A pong transaction calls `pong(bytes32)` on the contract. Its input is
    the ABI encoding of that call: the 4-byte function selector (section
    "Function Selector" of the Ethereum Contract ABI Specification) followed
    by the 32-byte ping hash. Printed as hex that is `0x`, 8 hex digits of
    selector, then the 64 hex digits of the hash. */
module Calldata {
  import opened Ledger

  /** `0x` plus the 8 hex digits of the selector. */
  const SelectorEnd: nat := 10

  predicate IsHexPrefixed(h: Hex)
  {
    |h| >= 2 && h[..2] == "0x"
  }

  /** The ping hash a pong input answers: drop `0x` and the selector, put
      `0x` back. Python's slice past the end gives the empty string. */
  function DecodePongInput(input: Hex): (h: Hex)
    ensures IsHexPrefixed(h)
    ensures |h| == if |input| <= SelectorEnd then 2 else |input| - SelectorEnd + 2
  {
    "0x" + (if |input| <= SelectorEnd then "" else input[SelectorEnd..])
  }

  /** The input of a `pong(hash)` call whose selector prints as `selector`. */
  function EncodePongCall(selector: Hex, hash: Hex): (input: Hex)
    requires |selector| == SelectorEnd - 2 && IsHexPrefixed(hash)
    ensures IsHexPrefixed(input) && |input| == |hash| + 8
  {
    "0x" + selector + hash[2..]
  }

  /** Decoding undoes the encoding: the bot recovers the ping hash a pong
      answers, whatever the selector. */
  lemma DecodeEncode(selector: Hex, hash: Hex)
    requires |selector| == SelectorEnd - 2 && IsHexPrefixed(hash)
    ensures DecodePongInput(EncodePongCall(selector, hash)) == hash
  {
  }

  /** The decoded hash of each pong input (`pong_datas`). */
  function PongDatas(inputs: seq<Hex>): (r: seq<Hex>)
    ensures |r| == |inputs|
    ensures forall i :: 0 <= i < |inputs| ==> r[i] == DecodePongInput(inputs[i])
  {
    seq(|inputs|, i requires 0 <= i < |inputs| => DecodePongInput(inputs[i]))
  }

  /** The inputs of pongs answering `hashes`, one each, in order. */
  function EncodeAll(selector: Hex, hashes: seq<Hex>): (r: seq<Hex>)
    requires |selector| == SelectorEnd - 2
    requires forall i :: 0 <= i < |hashes| ==> IsHexPrefixed(hashes[i])
    ensures |r| == |hashes|
  {
    seq(|hashes|, i requires 0 <= i < |hashes| => EncodePongCall(selector, hashes[i]))
  }

  /** Decoding the pongs gives back exactly the pings they answer, so a ping
      is counted as answered exactly when some pong was built for it. */
  lemma PongDatasOfEncoded(selector: Hex, hashes: seq<Hex>)
    requires |selector| == SelectorEnd - 2
    requires forall i :: 0 <= i < |hashes| ==> IsHexPrefixed(hashes[i])
    ensures PongDatas(EncodeAll(selector, hashes)) == hashes
  {
    var r := PongDatas(EncodeAll(selector, hashes));
    forall i | 0 <= i < |hashes|
      ensures r[i] == hashes[i]
    {
      DecodeEncode(selector, hashes[i]);
    }
  }

  /** A transaction that is a ping for this bot: sent to the contract by
      someone other than the bot. */
  predicate IsPing(t: Tx, cfg: Config)
  {
    t.to == cfg.contract && t.sender != cfg.sender
  }

  function Hashes(txs: seq<Tx>): (r: seq<Hex>)
    ensures |r| == |txs|
    ensures forall i :: 0 <= i < |txs| ==> r[i] == txs[i].hash
  {
    seq(|txs|, i requires 0 <= i < |txs| => txs[i].hash)
  }

  /** The pings of one block with no pong among `pongDatas`, in block order
      (`missing_ping_hashs`). */
  function MissingPings(blockTxs: seq<Tx>, pongDatas: seq<Hex>, cfg: Config): (r: seq<Hex>)
    ensures forall h :: h in r <==>
      (h !in pongDatas && exists t :: t in blockTxs && IsPing(t, cfg) && t.hash == h)
    ensures |r| <= |blockTxs|
  {
    if blockTxs == [] then []
    else
      var t := blockTxs[0];
      var rest := MissingPings(blockTxs[1..], pongDatas, cfg);
      assert forall u :: u in blockTxs <==> u == t || u in blockTxs[1..];
      if IsPing(t, cfg) && t.hash !in pongDatas then [t.hash] + rest else rest
  }

  predicate Distinct(s: seq<Hex>)
  {
    forall i, j :: 0 <= i < j < |s| ==> s[i] != s[j]
  }

  /** The missing pings are submitted in block order. */
  lemma {:induction false} MissingPingsInBlockOrder(blockTxs: seq<Tx>, pongDatas: seq<Hex>, cfg: Config)
    ensures IsSubsequence(MissingPings(blockTxs, pongDatas, cfg), Hashes(blockTxs))
  {
    if blockTxs != [] {
      MissingPingsInBlockOrder(blockTxs[1..], pongDatas, cfg);
      assert Hashes(blockTxs)[1..] == Hashes(blockTxs[1..]);
    }
  }

  /** When the block lists each transaction once, each missing ping is
      submitted once. */
  lemma {:induction false} MissingPingsOnce(blockTxs: seq<Tx>, pongDatas: seq<Hex>, cfg: Config)
    requires Distinct(Hashes(blockTxs))
    ensures Distinct(MissingPings(blockTxs, pongDatas, cfg))
  {
    if blockTxs != [] {
      var t := blockTxs[0];
      var tail := blockTxs[1..];
      assert Hashes(tail) == Hashes(blockTxs)[1..];
      MissingPingsOnce(tail, pongDatas, cfg);
      var rest := MissingPings(tail, pongDatas, cfg);
      if IsPing(t, cfg) && t.hash !in pongDatas {
        var r := [t.hash] + rest;
        forall i, j | 0 <= i < j < |r|
          ensures r[i] != r[j]
        {
          if i == 0 {
            assert r[j] == rest[j - 1];
          }
        }
      }
    }
  }
}
