/** Blocks of transactions and the verdict that a master passes on them (assign8/block.cc). */
module Blocks {
  import opened Basics
  import opened Txns

  const UCHAR_MAX := 255
  const GLOBAL_RARITY := 60
  const LOCAL_RARITY := 5

  predicate IsRare(hash: Digest, global: bool) {
    hash[0] < UCHAR_MAX / (if global then GLOBAL_RARITY else LOCAL_RARITY)
  }

  /** What the divisions come to: a first byte below 4 on a global network and below 51 on a local one. */
  lemma RareExactly(hash: Digest, global: bool)
    ensures IsRare(hash, global) <==> hash[0] < if global then 4 else 51
  {
  }

  /** The hash that a header of these fields should carry: its own hash field counts as zero. */
  function HashOf(n: Network, numTxns: int, rand: nat, txns: seq<Txn>): Digest {
    n.sha(numTxns, rand, Zeros(SHA_DIGEST_LENGTH), txns)
  }

  /** Transaction `i` verifies under the ledger and no transaction before it, other than the first, has its coin. */
  ghost predicate Spends(n: Network, txns: seq<Txn>, verified: seq<Txn>, i: nat)
    requires i < |txns|
  {
    Verifies(n, verified, txns[i]) && forall j :: 1 <= j < i ==> txns[j].coinID != txns[i].coinID
  }

  ghost predicate SpendsUpTo(n: Network, txns: seq<Txn>, verified: seq<Txn>, count: nat)
    requires count <= |txns|
  {
    forall i :: 1 <= i < count ==> Spends(n, txns, verified, i)
  }

  /** The first transaction that spoils the block fails to verify, or spends a coin again. */
  ghost predicate SpoiledAt(n: Network, txns: seq<Txn>, verified: seq<Txn>, i: int) {
    1 <= i < |txns| && SpendsUpTo(n, txns, verified, i) && !Spends(n, txns, verified, i)
  }

  ghost predicate SpoiledByInvalid(n: Network, txns: seq<Txn>, verified: seq<Txn>) {
    exists i :: SpoiledAt(n, txns, verified, i) && !Verifies(n, verified, txns[i])
  }

  ghost predicate SpoiledByRespent(n: Network, txns: seq<Txn>, verified: seq<Txn>) {
    exists i :: SpoiledAt(n, txns, verified, i) && Verifies(n, verified, txns[i])
  }

  /** What the ledger demands of a block: every transaction but the first verifies and spends a coin of its own, and
      the first brings a coin that does not exist. */
  ghost predicate Acceptable(n: Network, txns: seq<Txn>, verified: seq<Txn>) {
    txns != [] && SpendsUpTo(n, txns, verified, |txns|) && !HasCoin(verified, txns[0].coinID)
  }

  class BlockHeader {
    var numTxns: int
    var rand: nat
    var hash: Digest

    /** The header of a farmed block; `random` is the value of lrand(). */
    constructor (n: Network, txns: seq<Txn>, random: nat)
      ensures numTxns == |txns| && rand == random && hash == HashOf(n, |txns|, random, txns)
    {
      rand := random;
      numTxns := |txns|;
      hash := Zeros(SHA_DIGEST_LENGTH);
      new;
      HashBlock(n, txns);
    }

    /** A copy of another header. */
    constructor Copy(other: BlockHeader)
      ensures numTxns == other.numTxns && rand == other.rand && hash == other.hash
    {
      numTxns := other.numTxns;
      rand := other.rand;
      hash := other.hash;
    }

    /** hashBlock: the hash field is cleared first, so that hashing again changes nothing. */
    method HashBlock(n: Network, txns: seq<Txn>)
      modifies this
      ensures numTxns == old(numTxns) && rand == old(rand) && hash == HashOf(n, numTxns, rand, txns)
      ensures old(hash) == HashOf(n, numTxns, rand, txns) <==> hash == old(hash)
    {
      hash := Zeros(SHA_DIGEST_LENGTH);
      hash := n.sha(numTxns, rand, hash, txns);
    }

    /** verifyBlock: `cpy` is a copy of this header that the master has hashed again. */
    method VerifyBlock(n: Network, global: bool, txns: seq<Txn>, verifiedTxns: seq<Txn>, cpy: BlockHeader)
      returns (verdict: int)
      ensures verdict == 6 <==> txns == []
      ensures verdict == 1 <==> txns != [] && hash != cpy.hash
      ensures verdict == 2 <==> txns != [] && hash == cpy.hash && !IsRare(hash, global)
      ensures txns != [] && hash == cpy.hash && IsRare(hash, global) ==>
                && (verdict == 3 <==> SpoiledByInvalid(n, txns, verifiedTxns))
                && (verdict == 5 <==> SpoiledByRespent(n, txns, verifiedTxns))
                && (verdict == 4 <==> SpendsUpTo(n, txns, verifiedTxns, |txns|)
                                      && HasCoin(verifiedTxns, txns[0].coinID))
                && (verdict == 0 <==> Acceptable(n, txns, verifiedTxns))
      ensures 0 <= verdict <= 6
    {
      if |txns| == 0 {
        return 6;
      }
      if hash != cpy.hash {
        return 1;
      } else if !IsRare(hash, global) {
        return 2;
      }
      verdict := VerifyTxns(n, txns, verifiedTxns);
    }
  }

  /** The third branch of verifyBlock. */
  method VerifyTxns(n: Network, txns: seq<Txn>, verifiedTxns: seq<Txn>) returns (verdict: int)
    requires txns != []
    ensures verdict == 3 <==> SpoiledByInvalid(n, txns, verifiedTxns)
    ensures verdict == 5 <==> SpoiledByRespent(n, txns, verifiedTxns)
    ensures verdict == 4 <==> SpendsUpTo(n, txns, verifiedTxns, |txns|) && HasCoin(verifiedTxns, txns[0].coinID)
    ensures verdict == 0 <==> Acceptable(n, txns, verifiedTxns)
    ensures verdict in {0, 3, 4, 5}
  {
    var spoiled := CheckSpends(n, txns, verifiedTxns);
    if spoiled != 0 {
      return spoiled;
    }
    var coinbase := txns[0];
    for i := 0 to |verifiedTxns|
      invariant forall k :: 0 <= k < i ==> verifiedTxns[k].coinID != coinbase.coinID
    {
      if verifiedTxns[i].coinID == coinbase.coinID {
        return 4;
      }
    }
    return 0;
  }

  /** The loop over the transactions after the first: 3 or 5 for the first that spoils the block, 0 if none does. */
  method CheckSpends(n: Network, txns: seq<Txn>, verifiedTxns: seq<Txn>) returns (verdict: int)
    requires txns != []
    ensures verdict == 3 <==> SpoiledByInvalid(n, txns, verifiedTxns)
    ensures verdict == 5 <==> SpoiledByRespent(n, txns, verifiedTxns)
    ensures verdict == 0 <==> SpendsUpTo(n, txns, verifiedTxns, |txns|)
    ensures verdict in {0, 3, 5}
  {
    var seenCoinIDs: set<CoinID> := {};
    var i := 1;
    while i < |txns|
      invariant 1 <= i <= |txns| && SpendsUpTo(n, txns, verifiedTxns, i)
      invariant forall c :: c in seenCoinIDs <==> CoinIn(txns, i, c)
    {
      verdict := CheckSpend(n, txns[i], verifiedTxns, seenCoinIDs);
      if verdict != 0 {
        SpoiledHere(n, txns, verifiedTxns, i);
        return;
      }
      SeeCoin(txns, i);
      seenCoinIDs := seenCoinIDs + {txns[i].coinID};
      i := i + 1;
    }
    NotSpoiled(n, txns, verifiedTxns);
    return 0;
  }

  /** The body of that loop. */
  method CheckSpend(n: Network, t: Txn, verifiedTxns: seq<Txn>, seenCoinIDs: set<CoinID>) returns (verdict: int)
    ensures verdict == 3 <==> !Verifies(n, verifiedTxns, t)
    ensures verdict == 5 <==> Verifies(n, verifiedTxns, t) && t.coinID in seenCoinIDs
    ensures verdict in {0, 3, 5}
  {
    var verify := VerifySig(n, t, verifiedTxns);
    if verify != 1 {
      return 3;
    } else if t.coinID in seenCoinIDs {
      return 5;
    }
    return 0;
  }

  /** The coin occurs among the transactions before `count`, the first one not counted. */
  ghost predicate CoinIn(txns: seq<Txn>, count: nat, coin: CoinID)
    requires count <= |txns|
  {
    exists j :: 1 <= j < count && txns[j].coinID == coin
  }

  lemma SeeCoin(txns: seq<Txn>, i: nat)
    requires 1 <= i < |txns|
    ensures forall c :: CoinIn(txns, i + 1, c) <==> CoinIn(txns, i, c) || c == txns[i].coinID
  {
    forall c | CoinIn(txns, i, c) ensures CoinIn(txns, i + 1, c) {
      var j :| 1 <= j < i && txns[j].coinID == c;
      assert 1 <= j < i + 1;
    }
    assert CoinIn(txns, i + 1, txns[i].coinID);
  }

  /** A block is spoiled at one place only, which settles why. */
  lemma SpoiledHere(n: Network, txns: seq<Txn>, verified: seq<Txn>, i: nat)
    requires 1 <= i < |txns| && SpendsUpTo(n, txns, verified, i)
    requires !Verifies(n, verified, txns[i]) || CoinIn(txns, i, txns[i].coinID)
    ensures SpoiledByInvalid(n, txns, verified) <==> !Verifies(n, verified, txns[i])
    ensures SpoiledByRespent(n, txns, verified) <==> Verifies(n, verified, txns[i])
    ensures !SpendsUpTo(n, txns, verified, |txns|)
  {
    assert !Spends(n, txns, verified, i);
    assert SpoiledAt(n, txns, verified, i);
  }

  lemma NotSpoiled(n: Network, txns: seq<Txn>, verified: seq<Txn>)
    requires SpendsUpTo(n, txns, verified, |txns|)
    ensures !SpoiledByInvalid(n, txns, verified) && !SpoiledByRespent(n, txns, verified)
  {
  }

  /** What a BLOCK message carries. */
  datatype BlockMessage = BlockMessage(numTxns: int, rand: nat, hash: Digest, txns: seq<Txn>)

  /** The transactions that a loop of `announced` reads gets from a stream. A read past the end of the stream leaves an
      uninitialised transaction, which is `garbage`. */
  function Arrived(announced: int, stream: seq<Txn>, garbage: nat -> Txn): (r: seq<Txn>)
    ensures |r| == (if announced < 0 then 0 else announced)
    ensures announced <= |stream| ==> r <= stream
  {
    seq(if announced < 0 then 0 else announced, i requires 0 <= i => if i < |stream| then stream[i] else garbage(i))
  }

  /** readBlock: append as many transactions as the header announces. */
  method ReadBlock(msg: BlockMessage, txns0: seq<Txn>, garbage: nat -> Txn) returns (txns: seq<Txn>)
    ensures txns == txns0 + Arrived(msg.numTxns, msg.txns, garbage)
  {
    ghost var all := Arrived(msg.numTxns, msg.txns, garbage);
    txns := txns0;
    var i := 0;
    while i < msg.numTxns
      invariant 0 <= i <= |all|
      invariant txns == txns0 + all[..i]
    {
      var t := if i < |msg.txns| then msg.txns[i] else garbage(i);
      txns := txns + [t];
      i := i + 1;
    }
  }
}
