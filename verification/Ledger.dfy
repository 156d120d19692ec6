/** What accepted blocks make of the ledger of verified transactions (assign8). */
module Ledger {
  import opened Basics
  import opened Txns
  import opened Blocks

  function Coins(txns: seq<Txn>): set<CoinID> {
    set i | 0 <= i < |txns| :: txns[i].coinID
  }

  /** The entry at `p` starts its coin if it heads a block, and is a transfer signed by the coin's previous owner
      otherwise. */
  ghost predicate EntryOk(n: Network, ledger: seq<Txn>, heads: set<nat>, p: nat)
    requires p < |ledger|
  {
    if p in heads then !HasCoin(ledger[..p], ledger[p].coinID)
    else HasCoin(ledger[..p], ledger[p].coinID) && Verifies(n, ledger[..p], ledger[p])
  }

  /** `heads` are the positions where the blocks start. There are as many coins as blocks. */
  ghost predicate LedgerOk(n: Network, ledger: seq<Txn>, heads: set<nat>) {
    && (forall p :: p in heads ==> p < |ledger|)
    && (forall p :: 0 <= p < |ledger| ==> EntryOk(n, ledger, heads, p))
    && |Coins(ledger)| == |heads|
  }

  /** No coin occurs twice in an acceptable block, not even the one that the block brings. */
  lemma NoCoinTwice(n: Network, txns: seq<Txn>, verified: seq<Txn>)
    requires Acceptable(n, txns, verified)
    ensures forall i, k :: 0 <= i < k < |txns| ==> txns[i].coinID != txns[k].coinID
  {
    forall i, k | 0 <= i < k < |txns| ensures txns[i].coinID != txns[k].coinID {
      assert Spends(n, txns, verified, k);
      VerifiesHasCoin(n, verified, txns[k]);
    }
  }

  /** An acceptable block adds exactly one coin. */
  lemma OneCoinMore(n: Network, txns: seq<Txn>, ledger: seq<Txn>)
    requires Acceptable(n, txns, ledger)
    ensures Coins(ledger + txns) == Coins(ledger) + {txns[0].coinID}
    ensures |Coins(ledger + txns)| == |Coins(ledger)| + 1
  {
    var all := ledger + txns;
    forall c | c in Coins(all) ensures c in Coins(ledger) + {txns[0].coinID} {
      var p :| 0 <= p < |all| && all[p].coinID == c;
      if p > |ledger| {
        assert Spends(n, txns, ledger, p - |ledger|);
        VerifiesHasCoin(n, ledger, txns[p - |ledger|]);
      }
    }
    forall c | c in Coins(ledger) ensures c in Coins(all) {
      var p :| 0 <= p < |ledger| && ledger[p].coinID == c;
      assert all[p].coinID == c;
    }
    assert all[|ledger|] == txns[0];
    assert txns[0].coinID !in Coins(ledger);
  }

  lemma OldEntryOk(n: Network, txns: seq<Txn>, ledger: seq<Txn>, heads: set<nat>, p: nat)
    requires p < |ledger| && EntryOk(n, ledger, heads, p)
    ensures EntryOk(n, ledger + txns, heads + {|ledger|}, p)
  {
    assert (ledger + txns)[..p] == ledger[..p];
  }

  lemma NewEntryOk(n: Network, txns: seq<Txn>, ledger: seq<Txn>, heads: set<nat>, i: nat)
    requires Acceptable(n, txns, ledger) && i < |txns| && forall p :: p in heads ==> p < |ledger|
    ensures EntryOk(n, ledger + txns, heads + {|ledger|}, |ledger| + i)
  {
    var all := ledger + txns;
    assert all[..|ledger| + i] == ledger + txns[..i];
    if i == 0 {
      assert ledger + txns[..0] == ledger;
    } else {
      NoCoinTwice(n, txns, ledger);
      assert Spends(n, txns, ledger, i);
      VerifiesHasCoin(n, ledger, txns[i]);
      var k :| 0 <= k < |ledger| && ledger[k].coinID == txns[i].coinID;
      assert (ledger + txns[..i])[k] == ledger[k];
      assert !HasCoin(txns[..i], txns[i].coinID);
      VerifiesIgnoresOthers(n, ledger, txns[..i], txns[i]);
    }
  }

  /** Appending an accepted block keeps the ledger sound. */
  lemma AcceptedBlockKeepsLedger(n: Network, txns: seq<Txn>, ledger: seq<Txn>, heads: set<nat>)
    requires LedgerOk(n, ledger, heads) && Acceptable(n, txns, ledger)
    ensures LedgerOk(n, ledger + txns, heads + {|ledger|})
  {
    forall p | 0 <= p < |ledger + txns| ensures EntryOk(n, ledger + txns, heads + {|ledger|}, p) {
      if p < |ledger| {
        OldEntryOk(n, txns, ledger, heads, p);
      } else {
        NewEntryOk(n, txns, ledger, heads, p - |ledger|);
      }
    }
    OneCoinMore(n, txns, ledger);
  }

  // ---------------------------------------------------------------- whole histories

  function Flatten(blocks: seq<seq<Txn>>): seq<Txn> {
    if blocks == [] then [] else Flatten(blocks[..|blocks| - 1]) + blocks[|blocks| - 1]
  }

  /** Every block was accepted on top of those before it. */
  ghost predicate AllAccepted(n: Network, blocks: seq<seq<Txn>>) {
    blocks == []
    || (AllAccepted(n, blocks[..|blocks| - 1])
        && Acceptable(n, blocks[|blocks| - 1], Flatten(blocks[..|blocks| - 1])))
  }

  function Heads(blocks: seq<seq<Txn>>): set<nat> {
    if blocks == [] then {} else Heads(blocks[..|blocks| - 1]) + {|Flatten(blocks[..|blocks| - 1])|}
  }

  /** However long the history of accepted blocks: a coin starts exactly at the head of a block, every other entry is
      signed by the owner that the ledger named before it, and there are as many coins as blocks. */
  lemma {:induction false} HistoryIsSound(n: Network, blocks: seq<seq<Txn>>)
    requires AllAccepted(n, blocks)
    ensures LedgerOk(n, Flatten(blocks), Heads(blocks))
    ensures |Coins(Flatten(blocks))| == |blocks|
  {
    if blocks != [] {
      var front, last := blocks[..|blocks| - 1], blocks[|blocks| - 1];
      HistoryIsSound(n, front);
      AcceptedBlockKeepsLedger(n, last, Flatten(front), Heads(front));
      OneCoinMore(n, last, Flatten(front));
    }
  }
}
