/**
 * A farmer (assign8/farmer.cc): it collects transactions that verify under the ledger, farms blocks from them and
 * follows the blocks that the master announces. Each request handler is one step; FarmerThreads takes it apart.
 */
module Farming {
  import opened Basics
  import opened Txns
  import opened Blocks

  /** The outstanding transactions all verify under the ledger and are for distinct coins. */
  ghost predicate OutstandingOk(n: Network, verified: seq<Txn>, outstanding: seq<Txn>) {
    && (forall i :: 0 <= i < |outstanding| ==> Verifies(n, verified, outstanding[i]))
    && DistinctCoins(outstanding)
  }

  ghost predicate DistinctCoins(txns: seq<Txn>) {
    forall i, k :: 0 <= i < k < |txns| ==> txns[i].coinID != txns[k].coinID
  }

  // ---------------------------------------------------------------- TXN requests on values

  /** A transaction is kept if it verifies and its coin has no outstanding transaction. */
  function Offer(n: Network, verified: seq<Txn>, outstanding: seq<Txn>, t: Txn): seq<Txn> {
    if Verifies(n, verified, t) && !HasCoin(outstanding, t.coinID) then outstanding + [t] else outstanding
  }

  function OfferAll(n: Network, verified: seq<Txn>, outstanding: seq<Txn>, txns: seq<Txn>): seq<Txn> {
    if txns == [] then outstanding
    else Offer(n, verified, OfferAll(n, verified, outstanding, txns[..|txns| - 1]), txns[|txns| - 1])
  }

  /** Appending a transaction keeps the promise exactly if it verifies and brings a new coin. */
  lemma PushKeepsOutstanding(n: Network, verified: seq<Txn>, outstanding: seq<Txn>, t: Txn)
    requires OutstandingOk(n, verified, outstanding)
    ensures OutstandingOk(n, verified, outstanding + [t])
            <==> Verifies(n, verified, t) && !HasCoin(outstanding, t.coinID)
  {
    var longer := outstanding + [t];
    assert longer[|outstanding|] == t;
    if HasCoin(outstanding, t.coinID) {
      var i :| 0 <= i < |outstanding| && outstanding[i].coinID == t.coinID;
      assert longer[i].coinID == longer[|outstanding|].coinID;
    }
  }

  lemma {:induction false} OfferAllKeepsOutstanding(n: Network, verified: seq<Txn>, outstanding: seq<Txn>,
                                                    txns: seq<Txn>)
    requires OutstandingOk(n, verified, outstanding)
    ensures OutstandingOk(n, verified, OfferAll(n, verified, outstanding, txns))
  {
    if txns != [] {
      var before := OfferAll(n, verified, outstanding, txns[..|txns| - 1]);
      OfferAllKeepsOutstanding(n, verified, outstanding, txns[..|txns| - 1]);
      PushKeepsOutstanding(n, verified, before, txns[|txns| - 1]);
    }
  }

  /** Nothing outstanding is lost, and after a request a coin is outstanding exactly if it was before or some
      transaction of the request verifies for it. */
  lemma {:induction false} OfferAllCoins(n: Network, verified: seq<Txn>, outstanding: seq<Txn>, txns: seq<Txn>,
                                         coin: CoinID)
    ensures outstanding <= OfferAll(n, verified, outstanding, txns)
    ensures HasCoin(OfferAll(n, verified, outstanding, txns), coin)
            <==> HasCoin(outstanding, coin)
                 || exists i :: 0 <= i < |txns| && txns[i].coinID == coin && Verifies(n, verified, txns[i])
  {
    if txns != [] {
      var front, last := txns[..|txns| - 1], txns[|txns| - 1];
      var before := OfferAll(n, verified, outstanding, front);
      OfferAllCoins(n, verified, outstanding, front, coin);
      HasCoinAppended(before, last, coin);
      if i :| 0 <= i < |front| && front[i].coinID == coin && Verifies(n, verified, front[i]) {
        assert txns[i] == front[i];
      }
      if i :| 0 <= i < |txns| && txns[i].coinID == coin && Verifies(n, verified, txns[i]) {
        assert i < |front| ==> txns[i] == front[i];
      }
    }
  }

  lemma HasCoinAppended(txns: seq<Txn>, t: Txn, coin: CoinID)
    ensures HasCoin(txns + [t], coin) <==> HasCoin(txns, coin) || t.coinID == coin
  {
    if i :| 0 <= i < |txns| && txns[i].coinID == coin {
      assert (txns + [t])[i].coinID == coin;
    }
    assert (txns + [t])[|txns|] == t;
  }

  // ---------------------------------------------------------------- BLOCK requests on values

  /** The transactions that still verify, in order. */
  function StillValid(n: Network, verified: seq<Txn>, txns: seq<Txn>): seq<Txn> {
    if txns == [] then []
    else (if Verifies(n, verified, txns[0]) then [txns[0]] else []) + StillValid(n, verified, txns[1..])
  }

  lemma {:induction false} StillValidMembers(n: Network, verified: seq<Txn>, txns: seq<Txn>, t: Txn)
    ensures t in StillValid(n, verified, txns) <==> t in txns && Verifies(n, verified, t)
  {
    if txns != [] {
      StillValidMembers(n, verified, txns[1..], t);
      assert txns == [txns[0]] + txns[1..];
    }
  }

  /** Purging restores the promise under the longer ledger. */
  lemma {:induction false} PurgeRestoresOutstanding(n: Network, verified: seq<Txn>, txns: seq<Txn>)
    requires DistinctCoins(txns)
    ensures OutstandingOk(n, verified, StillValid(n, verified, txns))
  {
    if txns != [] {
      var rest := StillValid(n, verified, txns[1..]);
      PurgeRestoresOutstanding(n, verified, txns[1..]);
      forall k | 0 <= k < |rest| ensures rest[k].coinID != txns[0].coinID {
        StillValidMembers(n, verified, txns[1..], rest[k]);
        var j :| 0 <= j < |txns[1..]| && txns[1..][j] == rest[k];
        assert txns[j + 1] == rest[k];
      }
      ConsKeepsOutstanding(n, verified, txns[0], rest);
    }
  }

  lemma ConsKeepsOutstanding(n: Network, verified: seq<Txn>, t: Txn, rest: seq<Txn>)
    requires OutstandingOk(n, verified, rest) && forall k :: 0 <= k < |rest| ==> rest[k].coinID != t.coinID
    ensures Verifies(n, verified, t) ==> OutstandingOk(n, verified, [t] + rest)
  {
  }

  /** The list when everything before `it` has been checked and the rest has not. */
  function PurgedFrom(n: Network, verified: seq<Txn>, txns: seq<Txn>, it: nat): seq<Txn>
    requires it <= |txns|
  {
    txns[..it] + StillValid(n, verified, txns[it..])
  }

  /** Erasing a transaction that does not verify, or passing over one that does, leads to the same list. */
  lemma PurgeStep(n: Network, verified: seq<Txn>, txns: seq<Txn>, it: nat)
    requires it < |txns|
    ensures Verifies(n, verified, txns[it]) ==>
              PurgedFrom(n, verified, txns, it) == PurgedFrom(n, verified, txns, it + 1)
    ensures !Verifies(n, verified, txns[it]) ==>
              PurgedFrom(n, verified, txns, it) == PurgedFrom(n, verified, txns[..it] + txns[it + 1..], it)
  {
    assert txns[it..][1..] == txns[it + 1..];
    if Verifies(n, verified, txns[it]) {
      assert txns[..it + 1] == txns[..it] + [txns[it]];
    } else {
      var erased := txns[..it] + txns[it + 1..];
      assert erased[..it] == txns[..it] && erased[it..] == txns[it + 1..];
    }
  }

  lemma PurgeEnds(n: Network, verified: seq<Txn>, txns: seq<Txn>)
    ensures PurgedFrom(n, verified, txns, 0) == StillValid(n, verified, txns)
    ensures PurgedFrom(n, verified, txns, |txns|) == txns
  {
    assert txns[0..] == txns;
  }

  // ---------------------------------------------------------------- farmed blocks

  function Coinbase(name: Name, coinID: CoinID): Txn {
    Txn(name, coinID, Zeros(SIG_LEN))
  }

  /** A block with a coinbase in front of the outstanding transactions spends as the ledger demands exactly if the
      outstanding transactions are as they should be. */
  lemma FarmedBlockSpends(n: Network, verified: seq<Txn>, coinbase: Txn, outstanding: seq<Txn>)
    ensures var txns := [coinbase] + outstanding;
            SpendsUpTo(n, txns, verified, |txns|) <==> OutstandingOk(n, verified, outstanding)
  {
    var txns := [coinbase] + outstanding;
    forall i | 0 <= i < |outstanding| ensures txns[i + 1] == outstanding[i] {
    }
    if SpendsUpTo(n, txns, verified, |txns|) {
      forall i | 0 <= i < |outstanding| ensures Verifies(n, verified, outstanding[i]) {
        assert Spends(n, txns, verified, i + 1);
      }
      forall i, k | 0 <= i < k < |outstanding| ensures outstanding[i].coinID != outstanding[k].coinID {
        assert Spends(n, txns, verified, k + 1);
        assert txns[i + 1].coinID != txns[k + 1].coinID;
      }
    }
    if OutstandingOk(n, verified, outstanding) {
      forall i | 1 <= i < |txns| ensures Spends(n, txns, verified, i) {
        assert txns[i] == outstanding[i - 1];
        forall j | 1 <= j < i ensures txns[j].coinID != txns[i].coinID {
          assert txns[j] == outstanding[j - 1];
        }
      }
    }
  }

  /** The master hashes a copy of the header again and passes its verdict. */
  method Judge(n: Network, global: bool, block: BlockHeader, txns: seq<Txn>, verifiedTxns: seq<Txn>)
    returns (verdict: int)
    ensures verdict == 0 ==> Acceptable(n, txns, verifiedTxns)
    ensures verdict == 1 <==> txns != [] && block.hash != HashOf(n, block.numTxns, block.rand, txns)
    ensures txns != [] && block.hash == HashOf(n, block.numTxns, block.rand, txns) && IsRare(block.hash, global) ==>
              && (verdict == 4 <==> SpendsUpTo(n, txns, verifiedTxns, |txns|)
                                    && HasCoin(verifiedTxns, txns[0].coinID))
              && (verdict == 0 <==> Acceptable(n, txns, verifiedTxns))
  {
    var cpy := new BlockHeader.Copy(block);
    cpy.HashBlock(n, txns);
    verdict := block.VerifyBlock(n, global, txns, verifiedTxns, cpy);
  }

  class Farmer {
    const network: Network
    const myName: Name
    var verifiedTxns: seq<Txn>
    var outstandingTxns: seq<Txn>

    /** The saved ledger, extended by the answer to the CONNECT request. */
    constructor (network: Network, myName: Name, saved: seq<Txn>, newTxns: seq<Txn>)
      ensures this.network == network && this.myName == myName
      ensures verifiedTxns == saved + newTxns && outstandingTxns == []
    {
      this.network := network;
      this.myName := myName;
      verifiedTxns := saved + newTxns;
      outstandingTxns := [];
    }

    method IsOutstanding(coin: CoinID) returns (duplicate: bool)
      ensures duplicate <==> HasCoin(outstandingTxns, coin)
    {
      for i := 0 to |outstandingTxns|
        invariant forall k :: 0 <= k < i ==> outstandingTxns[k].coinID != coin
      {
        if outstandingTxns[i].coinID == coin {
          return true;
        }
      }
      return false;
    }

    /** handleTxnRequest: each of the transactions that the request announces is offered. */
    method HandleTxnRequest(numTxns: int, stream: seq<Txn>, garbage: nat -> Txn)
      modifies this`outstandingTxns
      ensures outstandingTxns
              == OfferAll(network, verifiedTxns, old(outstandingTxns), Arrived(numTxns, stream, garbage))
    {
      if numTxns == -1 {
        return;
      }
      ghost var all := Arrived(numTxns, stream, garbage);
      var i := 0;
      while i < numTxns
        invariant 0 <= i <= |all|
        invariant outstandingTxns == OfferAll(network, verifiedTxns, old(outstandingTxns), all[..i])
      {
        assert all[..i + 1][..i] == all[..i];
        TakeTxn(if i < |stream| then stream[i] else garbage(i));
        i := i + 1;
      }
      assert all[..i] == all;
    }

    /** The body of that loop (lines 148-170). */
    method TakeTxn(entry: Txn)
      modifies this`outstandingTxns
      ensures outstandingTxns == Offer(network, verifiedTxns, old(outstandingTxns), entry)
    {
      var verify := VerifySig(network, entry, verifiedTxns);
      if verify == 1 {
        var duplicate := IsOutstanding(entry.coinID);
        if !duplicate {
          outstandingTxns := outstandingTxns + [entry];
        }
      }
    }

    /** handleBlockRequest: append the block to the ledger, then erase in place what no longer verifies. */
    method HandleBlockRequest(msg: BlockMessage, garbage: nat -> Txn)
      modifies this
      ensures verifiedTxns == old(verifiedTxns) + Arrived(msg.numTxns, msg.txns, garbage)
      ensures outstandingTxns == StillValid(network, verifiedTxns, old(outstandingTxns))
    {
      verifiedTxns := ReadBlock(msg, verifiedTxns, garbage);
      PurgeOutstanding();
    }

    method PurgeOutstanding()
      modifies this`outstandingTxns
      ensures outstandingTxns == StillValid(network, verifiedTxns, old(outstandingTxns))
    {
      PurgeEnds(network, verifiedTxns, outstandingTxns);
      var it := 0;
      while it < |outstandingTxns|
        invariant 0 <= it <= |outstandingTxns|
        invariant PurgedFrom(network, verifiedTxns, outstandingTxns, it)
                  == StillValid(network, verifiedTxns, old(outstandingTxns))
        decreases |outstandingTxns| - it
      {
        PurgeStep(network, verifiedTxns, outstandingTxns, it);
        var verify := VerifySig(network, outstandingTxns[it], verifiedTxns);
        if verify != 1 {
          outstandingTxns := outstandingTxns[..it] + outstandingTxns[it + 1..];
        } else {
          it := it + 1;
        }
      }
      PurgeEnds(network, verifiedTxns, outstandingTxns);
    }

    /** One round of farm(): a coinbase with a random coin, then everything outstanding. */
    method Farm(coinID: CoinID, random: nat) returns (block: BlockHeader, txns: seq<Txn>)
      ensures fresh(block) && txns == [Coinbase(myName, coinID)] + outstandingTxns
      ensures block.numTxns == |txns| && block.rand == random && block.hash == HashOf(network, |txns|, random, txns)
    {
      txns := [Coinbase(myName, coinID)];
      for i := 0 to |outstandingTxns|
        invariant txns == [Coinbase(myName, coinID)] + outstandingTxns[..i]
      {
        txns := txns + [outstandingTxns[i]];
        assert outstandingTxns[..i + 1] == outstandingTxns[..i] + [outstandingTxns[i]];
      }
      assert outstandingTxns[..|outstandingTxns|] == outstandingTxns;
      block := new BlockHeader(network, txns, random);
    }

    /** A rare block that is farmed and judged under the farmer's own ledger gets verdict 0 or 4 exactly if the
        outstanding transactions are as they should be; then it is 4 only if the random coin existed already. */
    method FarmAndSubmit(global: bool, coinID: CoinID, random: nat) returns (sent: bool, verdict: int)
      ensures sent ==>
                && (verdict in {0, 4} <==> OutstandingOk(network, verifiedTxns, outstandingTxns))
                && (verdict == 4 ==> HasCoin(verifiedTxns, coinID))
                && (verdict == 0 ==> !HasCoin(verifiedTxns, coinID))
    {
      verdict := 0;
      var block, txns := Farm(coinID, random);
      sent := IsRare(block.hash, global);
      if sent {
        FarmedBlockSpends(network, verifiedTxns, txns[0], outstandingTxns);
        verdict := Judge(network, global, block, txns, verifiedTxns);
      }
    }
  }

  // ---------------------------------------------------------------- runs of handlers

  datatype FarmerState = FarmerState(verified: seq<Txn>, outstanding: seq<Txn>)

  datatype Request = TxnRequest(txns: seq<Txn>) | BlockRequest(txns: seq<Txn>)

  /** What HandleTxnRequest and HandleBlockRequest do to a farmer. */
  function Handle(n: Network, s: FarmerState, r: Request): FarmerState {
    match r
    case TxnRequest(txns) => s.(outstanding := OfferAll(n, s.verified, s.outstanding, txns))
    case BlockRequest(txns) =>
      var verified := s.verified + txns;
      FarmerState(verified, StillValid(n, verified, s.outstanding))
  }

  function HandleAll(n: Network, s: FarmerState, requests: seq<Request>): FarmerState
    decreases |requests|
  {
    if requests == [] then s else HandleAll(n, Handle(n, s, requests[0]), requests[1..])
  }

  /** After any requests, on any blocks, the outstanding transactions verify and are for distinct coins. */
  lemma {:induction false} RunKeepsOutstanding(n: Network, s: FarmerState, requests: seq<Request>)
    requires OutstandingOk(n, s.verified, s.outstanding)
    ensures var t := HandleAll(n, s, requests); OutstandingOk(n, t.verified, t.outstanding)
    decreases |requests|
  {
    if requests != [] {
      match requests[0] {
        case TxnRequest(txns) => OfferAllKeepsOutstanding(n, s.verified, s.outstanding, txns);
        case BlockRequest(txns) => PurgeRestoresOutstanding(n, s.verified + txns, s.outstanding);
      }
      RunKeepsOutstanding(n, Handle(n, s, requests[0]), requests[1..]);
    }
  }
}
