/**
 * The request handlers of a farmer as the threads they are (assign8/farmer.cc): each critical section is one step, and
 * the steps of any number of handlers interleave. The lock of the outstanding transactions is held while a handler
 * purges; the lock of the ledger is never held for longer than one step.
 */
module FarmerThreads {
  import opened Basics
  import opened Txns
  import opened Blocks
  import opened Farming

  datatype Pc =
    | Verify(rest: seq<Txn>)              // lines 148-150 for the next transaction; the end if there is none
    | Check(entry: Txn, rest: seq<Txn>)   // lines 155-163
    | Push(entry: Txn, rest: seq<Txn>)    // lines 166-168
    | Append(block: seq<Txn>)             // lines 184-188
    | Appended                            // line 191: outstandingTxnsLock
    | Purging(it: nat)                    // lines 192-203
    | Finished

  datatype State = State(verified: seq<Txn>, outstanding: seq<Txn>, handlers: seq<Pc>)

  predicate LockFree(s: State) {
    forall k :: 0 <= k < |s.handlers| ==> !s.handlers[k].Purging?
  }

  predicate Enabled(s: State, k: nat) {
    && k < |s.handlers|
    && match s.handlers[k]
       case Verify(rest) => rest != []
       case Check(_, _) => LockFree(s)
       case Push(_, _) => LockFree(s)
       case Append(_) => true
       case Appended => LockFree(s)
       case Purging(_) => true
       case Finished => false
  }

  function To(s: State, k: nat, pc: Pc): State
    requires k < |s.handlers|
  {
    s.(handlers := s.handlers[k := pc])
  }

  /** Handler `k` takes its next step. */
  function Next(n: Network, s: State, k: nat): State
    requires Enabled(s, k)
  {
    match s.handlers[k]
    case Verify(rest) =>
      To(s, k, if Verifies(n, s.verified, rest[0]) then Check(rest[0], rest[1..]) else Verify(rest[1..]))
    case Check(entry, rest) =>
      To(s, k, if HasCoin(s.outstanding, entry.coinID) then Verify(rest) else Push(entry, rest))
    case Push(entry, rest) => To(s, k, Verify(rest)).(outstanding := s.outstanding + [entry])
    case Append(block) => To(s, k, Appended).(verified := s.verified + block)
    case Appended => To(s, k, Purging(0))
    case Purging(it) =>
      if it >= |s.outstanding| then To(s, k, Finished)
      else if Verifies(n, s.verified, s.outstanding[it]) then To(s, k, Purging(it + 1))
      else s.(outstanding := s.outstanding[..it] + s.outstanding[it + 1..])
  }

  predicate Run(n: Network, s: State, steps: seq<nat>)
    decreases |steps|
  {
    steps == [] || (Enabled(s, steps[0]) && Run(n, Next(n, s, steps[0]), steps[1..]))
  }

  function After(n: Network, s: State, steps: seq<nat>): State
    requires Run(n, s, steps)
    decreases |steps|
  {
    if steps == [] then s else After(n, Next(n, s, steps[0]), steps[1..])
  }

  // ---------------------------------------------------------------- what is promised

  /** No block has been appended whose purge has not been finished. */
  predicate Quiet(s: State) {
    forall k :: 0 <= k < |s.handlers| ==> !s.handlers[k].Appended? && !s.handlers[k].Purging?
  }

  /** Outstanding transactions are for distinct coins; whenever no purge is due, they all verify. */
  ghost predicate Promise(n: Network, s: State) {
    && DistinctCoins(s.outstanding)
    && (Quiet(s) ==> OutstandingOk(n, s.verified, s.outstanding))
  }

  /** A handler has appended a block and has yet to start its purge. */
  predicate PurgeDue(s: State) { exists k :: 0 <= k < |s.handlers| && s.handlers[k].Appended? }

  /** What was checked still holds at the push: the coin is not outstanding, and the transaction verifies under the
      ledger as it is now, unless a purge is due that will look at it. */
  predicate Clean(n: Network, s: State, k: nat)
    requires Enabled(s, k)
  {
    s.handlers[k].Push? ==>
      var t := s.handlers[k].entry;
      !HasCoin(s.outstanding, t.coinID) && (Verifies(n, s.verified, t) || PurgeDue(s))
  }

  ghost predicate AlwaysKept(n: Network, s: State, steps: seq<nat>)
    requires Run(n, s, steps)
    decreases |steps|
  {
    Promise(n, s) && (steps == [] || AlwaysKept(n, Next(n, s, steps[0]), steps[1..]))
  }

  predicate AlwaysClean(n: Network, s: State, steps: seq<nat>)
    requires Run(n, s, steps)
    decreases |steps|
  {
    steps == [] || (Clean(n, s, steps[0]) && AlwaysClean(n, Next(n, s, steps[0]), steps[1..]))
  }

  // ---------------------------------------------------------------- the invariant

  /** Transaction `i` verifies, or a purge that has not passed it will look at it. */
  ghost predicate Covered(n: Network, s: State, i: nat)
    requires i < |s.outstanding|
  {
    Verifies(n, s.verified, s.outstanding[i]) || PurgeDue(s) || PurgeReaches(s, i)
  }

  predicate PurgeReaches(s: State, i: nat) {
    exists k :: 0 <= k < |s.handlers| && s.handlers[k].Purging? && s.handlers[k].it <= i
  }

  /** Only one handler holds the lock of the outstanding transactions. */
  predicate OnePurge(s: State) {
    forall i, k :: 0 <= i < k < |s.handlers| ==> !(s.handlers[i].Purging? && s.handlers[k].Purging?)
  }

  ghost predicate Inv(n: Network, s: State) {
    && OnePurge(s) && DistinctCoins(s.outstanding)
    && forall i :: 0 <= i < |s.outstanding| ==> Covered(n, s, i)
  }

  /** Any number of requests, none of them begun, and a list that is as it should be. */
  ghost predicate Init(n: Network, s: State) {
    && OutstandingOk(n, s.verified, s.outstanding)
    && forall k :: 0 <= k < |s.handlers| ==> s.handlers[k].Verify? || s.handlers[k].Append?
  }

  lemma InitInv(n: Network, s: State)
    requires Init(n, s)
    ensures Inv(n, s)
  {
  }

  lemma InvKeepsPromise(n: Network, s: State)
    requires Inv(n, s)
    ensures Promise(n, s)
  {
    forall i | 0 <= i < |s.outstanding| && Quiet(s) ensures Verifies(n, s.verified, s.outstanding[i]) {
      assert Covered(n, s, i);
    }
  }

  /** A step that changes one handler, and neither starts nor ends a purge, keeps every transaction covered. */
  lemma MoveKeepsInv(n: Network, s: State, k: nat, pc: Pc)
    requires Inv(n, s) && k < |s.handlers|
    requires !s.handlers[k].Appended? && !s.handlers[k].Purging? && !pc.Purging?
    ensures Inv(n, To(s, k, pc))
  {
    var t := To(s, k, pc);
    forall i | 0 <= i < |t.outstanding| ensures Covered(n, t, i) {
      assert Covered(n, s, i);
      if h :| 0 <= h < |s.handlers| && (s.handlers[h].Appended? || (s.handlers[h].Purging? && s.handlers[h].it <= i)) {
        assert t.handlers[h] == s.handlers[h];
      }
    }
  }

  lemma AppendKeepsInv(n: Network, s: State, k: nat)
    requires Inv(n, s) && Enabled(s, k) && s.handlers[k].Append?
    ensures Inv(n, Next(n, s, k))
  {
    assert Next(n, s, k).handlers[k].Appended?;
  }

  lemma LockKeepsInv(n: Network, s: State, k: nat)
    requires Inv(n, s) && Enabled(s, k) && s.handlers[k].Appended?
    ensures Inv(n, Next(n, s, k))
  {
    assert Next(n, s, k).handlers[k] == Purging(0);
  }

  /** The purge goes on: what it passes verifies, and erasing moves nothing past it. */
  lemma PurgeKeepsInv(n: Network, s: State, k: nat)
    requires Inv(n, s) && Enabled(s, k) && s.handlers[k].Purging?
    ensures Inv(n, Next(n, s, k))
  {
    var t, it := Next(n, s, k), s.handlers[k].it;
    forall i | 0 <= i < |t.outstanding| ensures Covered(n, t, i) {
      var j := if |t.outstanding| == |s.outstanding| || i < it then i else i + 1;
      assert Covered(n, s, j) && t.outstanding[i] == s.outstanding[j];
      if h :| 0 <= h < |s.handlers| && s.handlers[h].Appended? {
        assert t.handlers[h].Appended?;
      } else if it <= i && t.handlers[k].Purging? && t.handlers[k].it <= i {
        assert PurgeReaches(t, i);
      }
    }
  }

  /** A clean push keeps the invariant. */
  lemma PushKeepsInv(n: Network, s: State, k: nat)
    requires Inv(n, s) && Enabled(s, k) && s.handlers[k].Push? && Clean(n, s, k)
    ensures Inv(n, Next(n, s, k))
  {
    var t, last := Next(n, s, k), |s.outstanding|;
    var moved := To(s, k, Verify(s.handlers[k].rest));
    MoveKeepsInv(n, s, k, Verify(s.handlers[k].rest));
    assert t.handlers == moved.handlers && forall i :: 0 <= i < last ==> t.outstanding[i] == s.outstanding[i];
    forall i | 0 <= i < |t.outstanding| ensures Covered(n, t, i) {
      if i < last {
        assert Covered(n, moved, i);
      } else if h :| 0 <= h < |s.handlers| && s.handlers[h].Appended? {
        assert t.handlers[h].Appended?;
      }
    }
  }

  lemma StepKeepsInv(n: Network, s: State, k: nat)
    requires Inv(n, s) && Enabled(s, k) && Clean(n, s, k)
    ensures Inv(n, Next(n, s, k))
  {
    match s.handlers[k]
    case Verify(_) => MoveKeepsInv(n, s, k, Next(n, s, k).handlers[k]);
    case Check(_, _) => MoveKeepsInv(n, s, k, Next(n, s, k).handlers[k]);
    case Push(_, _) => PushKeepsInv(n, s, k);
    case Append(_) => AppendKeepsInv(n, s, k);
    case Appended => LockKeepsInv(n, s, k);
    case Purging(_) => PurgeKeepsInv(n, s, k);
  }

  /** A push that is not clean breaks the promise at once. */
  lemma DirtyPushBreaks(n: Network, s: State, k: nat)
    requires Inv(n, s) && Enabled(s, k) && !Clean(n, s, k)
    ensures !Promise(n, Next(n, s, k))
  {
    var t, entry := Next(n, s, k), s.handlers[k].entry;
    assert t.outstanding[|s.outstanding|] == entry;
    if HasCoin(s.outstanding, entry.coinID) {
      var i :| 0 <= i < |s.outstanding| && s.outstanding[i].coinID == entry.coinID;
      assert t.outstanding[i].coinID == t.outstanding[|s.outstanding|].coinID;
    } else {
      assert Quiet(t);
    }
  }

  /** Over every run of any TXN and BLOCK handlers: coins are distinct throughout, and all outstanding transactions
      verify whenever no purge is due, exactly if at each push what was checked before still holds. */
  lemma {:induction false} KeptExactly(n: Network, s: State, steps: seq<nat>)
    requires Inv(n, s) && Run(n, s, steps)
    ensures AlwaysKept(n, s, steps) <==> AlwaysClean(n, s, steps)
    decreases |steps|
  {
    InvKeepsPromise(n, s);
    if steps != [] {
      if Clean(n, s, steps[0]) {
        StepKeepsInv(n, s, steps[0]);
        KeptExactly(n, Next(n, s, steps[0]), steps[1..]);
      } else {
        DirtyPushBreaks(n, s, steps[0]);
        assert !AlwaysKept(n, Next(n, s, steps[0]), steps[1..]);
      }
    }
  }

  lemma InterleavedHandlers(n: Network, s: State, steps: seq<nat>)
    requires Init(n, s) && Run(n, s, steps)
    ensures AlwaysKept(n, s, steps) <==> AlwaysClean(n, s, steps)
  {
    InitInv(n, s);
    KeptExactly(n, s, steps);
  }

  /** A single push breaks a list that is as it should be exactly if the transaction does not verify any more or its
      coin has become outstanding. */
  lemma PushBreaksExactly(n: Network, s: State, k: nat)
    requires Enabled(s, k) && s.handlers[k].Push? && OutstandingOk(n, s.verified, s.outstanding)
    ensures var t := s.handlers[k].entry;
            OutstandingOk(n, Next(n, s, k).verified, Next(n, s, k).outstanding)
            <==> Verifies(n, s.verified, t) && !HasCoin(s.outstanding, t.coinID)
  {
    PushKeepsOutstanding(n, s.verified, s.outstanding, s.handlers[k].entry);
  }

  ghost predicate VerifiedOnce(n: Network, verified: seq<Txn>, t: Txn) {
    exists m :: 0 <= m <= |verified| && Verifies(n, verified[..m], t)
  }

  /** Whatever is about to be pushed did verify, under the ledger or an earlier part of it. */
  ghost predicate Checked(n: Network, s: State) {
    forall k :: 0 <= k < |s.handlers| && (s.handlers[k].Check? || s.handlers[k].Push?) ==>
      VerifiedOnce(n, s.verified, s.handlers[k].entry)
  }

  lemma StepKeepsChecked(n: Network, s: State, k: nat)
    requires Checked(n, s) && Enabled(s, k)
    ensures Checked(n, Next(n, s, k))
  {
    var t := Next(n, s, k);
    forall h | 0 <= h < |t.handlers| && (t.handlers[h].Check? || t.handlers[h].Push?)
      ensures VerifiedOnce(n, t.verified, t.handlers[h].entry)
    {
      if h == k && s.handlers[k].Verify? {
        assert s.verified[..|s.verified|] == s.verified;
      } else {
        var m :| 0 <= m <= |s.verified| && Verifies(n, s.verified[..m], s.handlers[h].entry);
        assert t.verified[..m] == s.verified[..m];
      }
    }
  }

  /** So a push can break the promise only because of what other handlers did since the check. */
  lemma {:induction false} RunKeepsChecked(n: Network, s: State, steps: seq<nat>)
    requires Checked(n, s) && Run(n, s, steps)
    ensures Checked(n, After(n, s, steps))
    decreases |steps|
  {
    if steps != [] {
      StepKeepsChecked(n, s, steps[0]);
      RunKeepsChecked(n, Next(n, s, steps[0]), steps[1..]);
    }
  }

  // ---------------------------------------------------------------- handlers that are left alone

  ghost predicate Reaches(n: Network, s: State, t: State) {
    exists steps :: Run(n, s, steps) && After(n, s, steps) == t
  }

  lemma Stay(n: Network, s: State)
    ensures Reaches(n, s, s)
  {
    assert Run(n, s, []) && After(n, s, []) == s;
  }

  lemma {:induction false} RunAppend(n: Network, s: State, steps: seq<nat>, k: nat)
    requires Run(n, s, steps) && Enabled(After(n, s, steps), k)
    ensures Run(n, s, steps + [k]) && After(n, s, steps + [k]) == Next(n, After(n, s, steps), k)
    decreases |steps|
  {
    if steps == [] {
      assert [] + [k] == [k] && [k][1..] == [];
    } else {
      assert (steps + [k])[1..] == steps[1..] + [k];
      RunAppend(n, Next(n, s, steps[0]), steps[1..], k);
    }
  }

  lemma Then(n: Network, s: State, t: State, k: nat) returns (u: State)
    requires Reaches(n, s, t) && Enabled(t, k)
    ensures u == Next(n, t, k) && Reaches(n, s, u)
  {
    var steps :| Run(n, s, steps) && After(n, s, steps) == t;
    RunAppend(n, s, steps, k);
    u := Next(n, t, k);
  }

  lemma {:induction false} OfferFirst(n: Network, verified: seq<Txn>, outstanding: seq<Txn>, txns: seq<Txn>)
    requires txns != []
    ensures OfferAll(n, verified, outstanding, txns)
            == OfferAll(n, verified, Offer(n, verified, outstanding, txns[0]), txns[1..])
  {
    var front := txns[..|txns| - 1];
    if front != [] {
      OfferFirst(n, verified, outstanding, front);
      assert txns[1..][..|txns[1..]| - 1] == front[1..];
    }
  }

  /** A TXN handler that no other interrupts does what HandleTxnRequest does. */
  lemma {:induction false} TxnHandlerAlone(n: Network, s0: State, s: State, k: nat) returns (t: State)
    requires Reaches(n, s0, s) && LockFree(s) && k < |s.handlers| && s.handlers[k].Verify?
    ensures Reaches(n, s0, t) && t.handlers == s.handlers[k := Verify([])] && t.verified == s.verified
    ensures t.outstanding == OfferAll(n, s.verified, s.outstanding, s.handlers[k].rest)
    decreases |s.handlers[k].rest|
  {
    var txns := s.handlers[k].rest;
    t := s;
    if txns != [] {
      OfferFirst(n, s.verified, s.outstanding, txns);
      t := OneTxnAlone(n, s0, s, k);
      t := TxnHandlerAlone(n, s0, t, k);
    }
  }

  lemma OneTxnAlone(n: Network, s0: State, s: State, k: nat) returns (t: State)
    requires Reaches(n, s0, s) && LockFree(s) && k < |s.handlers| && s.handlers[k].Verify? && s.handlers[k].rest != []
    ensures var txns := s.handlers[k].rest;
            && Reaches(n, s0, t) && t.handlers == s.handlers[k := Verify(txns[1..])] && t.verified == s.verified
            && t.outstanding == Offer(n, s.verified, s.outstanding, txns[0])
  {
    t := Then(n, s0, s, k);
    if t.handlers[k].Check? {
      t := Then(n, s0, t, k);
      if t.handlers[k].Push? {
        t := Then(n, s0, t, k);
      }
    }
  }

  /** A BLOCK handler that no other interrupts does what HandleBlockRequest does. */
  lemma BlockHandlerAlone(n: Network, s0: State, s: State, k: nat) returns (t: State)
    requires Reaches(n, s0, s) && LockFree(s) && k < |s.handlers| && s.handlers[k].Append?
    ensures Reaches(n, s0, t) && t.handlers == s.handlers[k := Finished]
    ensures t.verified == s.verified + s.handlers[k].block
    ensures t.outstanding == StillValid(n, t.verified, s.outstanding)
  {
    t := Then(n, s0, s, k);
    t := Then(n, s0, t, k);
    PurgeEnds(n, t.verified, t.outstanding);
    t := PurgeAlone(n, s0, t, k);
  }

  lemma {:induction false} PurgeAlone(n: Network, s0: State, s: State, k: nat) returns (t: State)
    requires Reaches(n, s0, s) && k < |s.handlers| && s.handlers[k].Purging? && s.handlers[k].it <= |s.outstanding|
    ensures Reaches(n, s0, t) && t.handlers == s.handlers[k := Finished] && t.verified == s.verified
    ensures t.outstanding == PurgedFrom(n, s.verified, s.outstanding, s.handlers[k].it)
    decreases |s.outstanding| - s.handlers[k].it
  {
    var it := s.handlers[k].it;
    t := Then(n, s0, s, k);
    if it < |s.outstanding| {
      PurgeStep(n, s.verified, s.outstanding, it);
      t := PurgeAlone(n, s0, t, k);
    } else {
      PurgeEnds(n, s.verified, s.outstanding);
    }
  }

  // ---------------------------------------------------------------- it happens

  const A: Name := Zeros(NAME_MAX_LEN)
  const B: Name := [66] + Zeros(NAME_MAX_LEN - 1)

  /** A network in which only the signatures of A, who has key 0, verify. */
  function OnlyA(): Network {
    Network(name => Some(if name == [] then 0 else 1), (key, txn, sig) => key == 0,
            (num, rand, hash, txns) => Zeros(SHA_DIGEST_LENGTH))
  }

  /** A owns coin 7 and passes it on to B. */
  function Ledger7(): seq<Txn> { [Coinbase(A, 7)] }

  function PassOn(): Txn { Coinbase(B, 7) }

  lemma PassesOnce()
    ensures Verifies(OnlyA(), Ledger7(), PassOn())
    ensures forall ledger: seq<Txn> :: !Verifies(OnlyA(), ledger + [PassOn()], PassOn())
  {
    assert UpToNul(A) == [] && UpToNul(B) != [];
    assert LastOf(Ledger7(), 7) == Some(Coinbase(A, 7));
    forall ledger: seq<Txn> ensures !Verifies(OnlyA(), ledger + [PassOn()], PassOn()) {
      assert LastOf(ledger + [PassOn()], 7) == Some(PassOn());
    }
  }

  lemma BothChecked(n: Network, s: State, t: Txn) returns (u: State)
    requires s.outstanding == [] && s.handlers == [Verify([t]), Verify([t])] && Verifies(n, s.verified, t)
    ensures Reaches(n, s, u) && u == s.(handlers := [Push(t, []), Push(t, [])])
  {
    assert [t][1..] == [];
    Stay(n, s);
    u := Then(n, s, s, 0);
    u := Then(n, s, u, 1);
    u := Then(n, s, u, 0);
    u := Then(n, s, u, 1);
  }

  /** Two requests with the same transaction, each checked before the other pushes, whatever the network. */
  lemma TwoPushes(n: Network, verified: seq<Txn>, t: Txn) returns (s: State, u: State)
    requires Verifies(n, verified, t)
    ensures Init(n, s) && s.verified == verified && Reaches(n, s, u) && Quiet(u)
    ensures u.verified == verified && u.outstanding == [t, t]
  {
    s := State(verified, [], [Verify([t]), Verify([t])]);
    u := BothChecked(n, s, t);
    u := Then(n, s, u, 0);
    u := Then(n, s, u, 1);
  }

  /** A request is checked, a block is appended and purged, and then the transaction is pushed. */
  lemma LatePush(n: Network, verified: seq<Txn>, block: seq<Txn>, t: Txn) returns (s: State, u: State)
    requires Verifies(n, verified, t)
    ensures Init(n, s) && s.verified == verified && Reaches(n, s, u) && Quiet(u)
    ensures u.verified == verified + block && u.outstanding == [t]
  {
    s := State(verified, [], [Verify([t]), Append(block)]);
    Stay(n, s);
    u := Then(n, s, s, 0);
    u := Then(n, s, u, 0);
    u := Then(n, s, u, 1);
    u := Then(n, s, u, 1);
    u := Then(n, s, u, 1);
    u := Then(n, s, u, 0);
  }

  /** Two TXN requests for the same coin both verify and both find it free: it is outstanding twice, and a block that is
      farmed then is rejected. */
  lemma DuplicateRun() returns (s: State, u: State)
    ensures Init(OnlyA(), s) && Reaches(OnlyA(), s, u) && Quiet(u)
    ensures u.verified == s.verified && u.outstanding == [PassOn(), PassOn()]
    ensures !OutstandingOk(OnlyA(), u.verified, u.outstanding)
    ensures forall coinbase: Txn :: SpoiledByRespent(OnlyA(), [coinbase] + u.outstanding, u.verified)
  {
    PassesOnce();
    s, u := TwoPushes(OnlyA(), Ledger7(), PassOn());
    SpoiledTwice(OnlyA(), Ledger7(), PassOn());
  }

  lemma SpoiledTwice(n: Network, verified: seq<Txn>, t: Txn)
    requires Verifies(n, verified, t)
    ensures !OutstandingOk(n, verified, [t, t])
    ensures forall coinbase: Txn :: SpoiledByRespent(n, [coinbase] + [t, t], verified)
  {
    assert [t, t][0].coinID == [t, t][1].coinID;
    forall coinbase: Txn ensures SpoiledByRespent(n, [coinbase] + [t, t], verified) {
      var txns := [coinbase] + [t, t];
      assert txns[1].coinID == txns[2].coinID && SpoiledAt(n, txns, verified, 2);
    }
  }

  /** A TXN handler has checked a transaction when an acceptable block that contains it is appended and purged; then it
      is pushed, does not verify any more, and no purge is due. A block that is farmed then is rejected. */
  lemma BlockRaceRun() returns (s: State, block: seq<Txn>, u: State)
    ensures Init(OnlyA(), s) && Acceptable(OnlyA(), block, s.verified) && Reaches(OnlyA(), s, u) && Quiet(u)
    ensures u.verified == s.verified + block && u.outstanding == [PassOn()]
    ensures !OutstandingOk(OnlyA(), u.verified, u.outstanding)
    ensures forall coinbase: Txn :: SpoiledByInvalid(OnlyA(), [coinbase] + u.outstanding, u.verified)
  {
    PassesOnce();
    block := [Coinbase(B, 8), PassOn()];
    s, u := LatePush(OnlyA(), Ledger7(), block, PassOn());
    assert Ledger7() + block == (Ledger7() + [Coinbase(B, 8)]) + [PassOn()];
    SpoiledOnce(OnlyA(), u.verified, PassOn());
  }

  lemma SpoiledOnce(n: Network, verified: seq<Txn>, t: Txn)
    requires !Verifies(n, verified, t)
    ensures !OutstandingOk(n, verified, [t])
    ensures forall coinbase: Txn :: SpoiledByInvalid(n, [coinbase] + [t], verified)
  {
    assert !Verifies(n, verified, [t][0]);
    forall coinbase: Txn ensures SpoiledByInvalid(n, [coinbase] + [t], verified) {
      assert SpoiledAt(n, [coinbase] + [t], verified, 1);
    }
  }
}
