/**
 * Transactions of the coin network (assign8/txn.cc) and the search for a coin's last owner (assign8/utils.cc).
 * RSA, SHA and the table of user keys are uninterpreted functions.
 */
module Txns {
  import opened Basics

  const NAME_MAX_LEN := 32
  const SIG_LEN := 128
  const SHA_DIGEST_LENGTH := 20

  type CoinID = c: int | 0 <= c < 0x1_0000_0000_0000_0000

  type Name = n: seq<Byte> | |n| == NAME_MAX_LEN witness seq(NAME_MAX_LEN, i => 0)

  type Signature = s: seq<Byte> | |s| == SIG_LEN witness seq(SIG_LEN, i => 0)

  type Digest = d: seq<Byte> | |d| == SHA_DIGEST_LENGTH witness seq(SHA_DIGEST_LENGTH, i => 0)

  type Key = nat

  /** A coin's transfer to a user. */
  datatype Txn = Txn(toName: Name, coinID: CoinID, fromSig: Signature)

  /** The transaction with its signature set to zero, which is what is signed. */
  function Zeroed(t: Txn): Txn { t.(fromSig := Zeros(SIG_LEN)) }

  /** The keys of the users, RSA verification and the hash of a header (number of transactions, random value, digest)
      followed by transactions. */
  datatype Network = Network(
    userKeys: CString -> Option<Key>,
    rsaVerify: (Key, Txn, Signature) -> bool,
    sha: (int, nat, Digest, seq<Txn>) -> Digest)

  predicate HasCoin(txns: seq<Txn>, coin: CoinID) {
    exists i :: 0 <= i < |txns| && txns[i].coinID == coin
  }

  /** The transaction is the last one of its coin. */
  predicate IsLastOf(txns: seq<Txn>, coin: CoinID, last: Txn) {
    exists i :: 0 <= i < |txns| && txns[i] == last && last.coinID == coin
                && forall k :: i < k < |txns| ==> txns[k].coinID != coin
  }

  /** The last transaction of a coin, searched from the end. */
  function LastOf(txns: seq<Txn>, coin: CoinID): Option<Txn> {
    if txns == [] then None
    else if txns[|txns| - 1].coinID == coin then Some(txns[|txns| - 1])
    else LastOf(txns[..|txns| - 1], coin)
  }

  lemma {:induction false} LastOfIsLast(txns: seq<Txn>, coin: CoinID)
    ensures LastOf(txns, coin).Some? <==> HasCoin(txns, coin)
    ensures LastOf(txns, coin).Some? ==> IsLastOf(txns, coin, LastOf(txns, coin).value)
  {
    if txns != [] {
      var front := txns[..|txns| - 1];
      if txns[|txns| - 1].coinID != coin {
        LastOfIsLast(front, coin);
        if LastOf(front, coin).Some? {
          var i :| 0 <= i < |front| && front[i] == LastOf(front, coin).value
                   && forall k :: i < k < |front| ==> front[k].coinID != coin;
          assert txns[i] == front[i] && forall k :: i < k < |front| ==> txns[k] == front[k];
        } else {
          assert forall i :: 0 <= i < |front| ==> txns[i] == front[i];
        }
      }
    }
  }

  /** Transactions of other coins do not matter. */
  lemma {:induction false} LastOfIgnoresOthers(txns: seq<Txn>, more: seq<Txn>, coin: CoinID)
    requires !HasCoin(more, coin)
    ensures LastOf(txns + more, coin) == LastOf(txns, coin)
  {
    if more == [] {
      assert txns + more == txns;
    } else {
      var front := more[..|more| - 1];
      assert (txns + more)[..|txns + more| - 1] == txns + front;
      assert forall i :: 0 <= i < |front| ==> more[i] == front[i];
      LastOfIgnoresOthers(txns, front, coin);
    }
  }

  method LastTxn(verifiedTxns: seq<Txn>, coinID: CoinID) returns (found: bool, last: Txn)
    ensures found <==> HasCoin(verifiedTxns, coinID)
    ensures found ==> IsLastOf(verifiedTxns, coinID, last) && LastOf(verifiedTxns, coinID) == Some(last)
    ensures !found ==> LastOf(verifiedTxns, coinID).None?
  {
    last := *;
    LastOfIsLast(verifiedTxns, coinID);
    var i := |verifiedTxns| - 1;
    assert verifiedTxns[..i + 1] == verifiedTxns;
    while i >= 0
      invariant -1 <= i < |verifiedTxns|
      invariant forall k :: i < k < |verifiedTxns| ==> verifiedTxns[k].coinID != coinID
      invariant LastOf(verifiedTxns, coinID) == LastOf(verifiedTxns[..i + 1], coinID)
    {
      assert verifiedTxns[..i + 1][..i] == verifiedTxns[..i];
      var t := verifiedTxns[i];
      if t.coinID == coinID {
        return true, t;
      }
      i := i - 1;
    }
    return false, last;
  }

  /** The owner of the coin signed its transfer: the key of the recipient of the coin's last transaction verifies the
      signature. */
  predicate Verifies(n: Network, verified: seq<Txn>, t: Txn) {
    match LastOf(verified, t.coinID)
    case None => false
    case Some(last) =>
      match n.userKeys(UpToNul(last.toName))
      case None => false
      case Some(key) => n.rsaVerify(key, Zeroed(t), t.fromSig)
  }

  /** verifySig: 1 if the signature is right, 0 if it is wrong, -1 if the coin has no previous transaction and -2 if
      its owner is unknown. */
  method VerifySig(n: Network, t: Txn, verifiedTxns: seq<Txn>) returns (r: int)
    ensures r == 1 <==> Verifies(n, verifiedTxns, t)
    ensures r == -1 <==> !HasCoin(verifiedTxns, t.coinID)
    ensures r == -2 <==> exists last :: IsLastOf(verifiedTxns, t.coinID, last) && n.userKeys(UpToNul(last.toName)).None?
    ensures r in {1, 0, -1, -2}
  {
    var found, last := LastTxn(verifiedTxns, t.coinID);
    if !found {
      return -1;
    }
    LastIsUnique(verifiedTxns, t.coinID, last);
    var toPubKey := n.userKeys(UpToNul(last.toName));
    if toPubKey == None {
      return -2;
    }
    return if n.rsaVerify(toPubKey.value, Zeroed(t), t.fromSig) then 1 else 0;
  }

  lemma LastIsUnique(txns: seq<Txn>, coin: CoinID, last: Txn)
    requires IsLastOf(txns, coin, last)
    ensures forall t :: IsLastOf(txns, coin, t) ==> t == last
  {
  }

  /** A transfer verifies only if its coin exists. */
  lemma VerifiesHasCoin(n: Network, verified: seq<Txn>, t: Txn)
    requires Verifies(n, verified, t)
    ensures HasCoin(verified, t.coinID)
  {
    LastOfIsLast(verified, t.coinID);
  }

  lemma VerifiesIgnoresOthers(n: Network, verified: seq<Txn>, more: seq<Txn>, t: Txn)
    requires !HasCoin(more, t.coinID)
    ensures Verifies(n, verified + more, t) <==> Verifies(n, verified, t)
  {
    LastOfIgnoresOthers(verified, more, t.coinID);
  }

  // ---------------------------------------------------------------- what is signed

  /** The part that is signed is the recipient and the coin, and nothing else. */
  lemma SignedPart(t: Txn, u: Txn)
    ensures Zeroed(t) == Zeroed(u) <==> t.toName == u.toName && t.coinID == u.coinID
  {
  }

  /** sign: the signature of the transaction with its own signature set to zero. */
  method Sign(t: Txn, rsaSign: Txn -> Signature) returns (signed: Txn)
    ensures signed == t.(fromSig := rsaSign(t.(fromSig := Zeros(SIG_LEN))))
  {
    signed := t.(fromSig := rsaSign(Zeroed(t)));
  }

  /** Whatever was signed with the private key of the coin's last recipient verifies. */
  lemma SignedByOwnerVerifies(n: Network, verified: seq<Txn>, t: Txn, last: Txn, key: Key, rsaSign: Txn -> Signature)
    requires IsLastOf(verified, t.coinID, last) && n.userKeys(UpToNul(last.toName)) == Some(key)
    requires forall u: Txn :: n.rsaVerify(key, u, rsaSign(u))
    ensures Verifies(n, verified, t.(fromSig := rsaSign(t.(fromSig := Zeros(SIG_LEN)))))
  {
    LastOfIsLast(verified, t.coinID);
    LastIsUnique(verified, t.coinID, last);
  }
}
