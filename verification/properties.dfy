/**
 * Properties of the transaction state machine that relate several records:
 * the dispute/resolve round trip, what a chargeback leaves behind, the lock
 * counter as a count of open disputes, and a feed that never panics.
 */
module Properties {
  import opened Types
  import opened Rules

  /**
   * A dispute followed by a resolve of the same transaction by the same
   * client restores both tables exactly, as long as the lock counter was
   * below its ceiling.
   */
  lemma DisputeResolveRoundTrip(s: State, d: Transaction, r: Transaction)
    requires DisputeStep(s, d).outcome == Applied
    requires r.txId == d.txId && r.clientId == d.clientId
    requires s.clients[d.clientId].totalLocks as int < U16_MAX
    ensures ResolveStep(DisputeStep(s, d).state, r) == Step(Applied, s)
  {
  }

  /**
   * At the ceiling the round trip loses a lock: the dispute cannot add one,
   * the resolve still removes one, everything else is restored.
   */
  lemma DisputeResolveSaturated(s: State, d: Transaction, r: Transaction)
    requires DisputeStep(s, d).outcome == Applied
    requires r.txId == d.txId && r.clientId == d.clientId
    requires s.clients[d.clientId].totalLocks as int == U16_MAX
    ensures var after := ResolveStep(DisputeStep(s, d).state, r);
      && after.outcome == Applied
      && after.state.transactions == s.transactions
      && after.state.clients == s.clients[d.clientId := s.clients[d.clientId].(totalLocks := (U16_MAX - 1) as U16)]
  {
  }

  /**
   * A chargeback leaves the entry disputed, so the same chargeback passes
   * its guards again and takes the amount a second time.
   */
  lemma ChargebackRepeats(s: State, t: Transaction)
    requires ChargebackStep(s, t).outcome == Applied
    ensures var once := ChargebackStep(s, t).state;
      var twice := ChargebackStep(once, t);
      var a := s.transactions[t.txId].amount.value;
      && twice.outcome == Applied
      && twice.state.clients[t.clientId].held == s.clients[t.clientId].held - 2 * a
      && twice.state.clients[t.clientId].total == s.clients[t.clientId].total - 2 * a
  {
  }

  /**
   * A resolve after a chargeback also passes its guards: it returns the
   * amount to `available` (although `held` and `total` already lost it) and
   * removes the lock, so a charged-back account can be unlocked again.
   */
  lemma ResolveAfterChargeback(s: State, cb: Transaction, r: Transaction)
    requires ChargebackStep(s, cb).outcome == Applied
    requires r.txId == cb.txId && r.clientId == cb.clientId
    ensures var after := ResolveStep(ChargebackStep(s, cb).state, r);
      var a := s.transactions[cb.txId].amount.value;
      var before := s.clients[cb.clientId];
      var cd := after.state.clients[cb.clientId];
      && after.outcome == Applied
      && cd.available == before.available + a
      && cd.held == before.held - 2 * a
      && cd.total == before.total - a
      && cd.totalLocks == SaturatingDec(before.totalLocks)
  {
  }

  /** The ledger entries of client `c` that are currently disputed. */
  function OpenDisputes(s: State, c: ClientId): (ids: set<TxId>)
    ensures ids <= s.transactions.Keys
  {
    set id | id in s.transactions && s.transactions[id].clientId == c && s.transactions[id].isDisputed
  }

  /** Every account's lock counter equals the number of its open disputes. */
  ghost predicate LocksTrackDisputes(s: State) {
    forall c | c in s.clients :: s.clients[c].totalLocks as int == |OpenDisputes(s, c)|
  }

  /** A subset is no larger than its superset. */
  lemma SubsetSize(a: set<TxId>, b: set<TxId>)
    requires a <= b
    ensures |a| <= |b|
  {
    assert b == a + (b - a);
    assert a * (b - a) == {};
  }

  /**
   * With lock tracking in place, an account is locked exactly when it has an
   * open dispute.
   */
  lemma LockedIffOpenDispute(s: State, c: ClientId)
    requires LocksTrackDisputes(s) && c in s.clients
    ensures s.clients[c].Locked() <==> OpenDisputes(s, c) != {}
  {
  }

  /** A deposit adds an undisputed entry and a new account starts with no locks and no disputes. */
  lemma DepositTracksLocks(s: State, t: Transaction)
    requires Valid(s) && LocksTrackDisputes(s) && !t.isDisputed
    ensures LocksTrackDisputes(DepositStep(s, t).state)
  {
    var s' := DepositStep(s, t).state;
    forall c | c in s'.clients ensures s'.clients[c].totalLocks as int == |OpenDisputes(s', c)| {
      assert OpenDisputes(s', c) == OpenDisputes(s, c);
      if c !in s.clients {
        assert OpenDisputes(s, c) == {};
      }
    }
  }

  /** A withdrawal adds an undisputed entry and leaves every lock counter alone. */
  lemma WithdrawalTracksLocks(s: State, t: Transaction)
    requires LocksTrackDisputes(s) && !t.isDisputed
    ensures LocksTrackDisputes(WithdrawalStep(s, t).state)
  {
    var s' := WithdrawalStep(s, t).state;
    forall c | c in s'.clients ensures s'.clients[c].totalLocks as int == |OpenDisputes(s', c)| {
      assert OpenDisputes(s', c) == OpenDisputes(s, c);
    }
  }

  /** A dispute opens one dispute and adds one lock; below the ceiling the lock is not lost to saturation. */
  lemma DisputeTracksLocks(s: State, t: Transaction)
    requires LocksTrackDisputes(s) && |s.transactions| < U16_MAX
    ensures LocksTrackDisputes(DisputeStep(s, t).state)
  {
    var s' := DisputeStep(s, t).state;
    if DisputeStep(s, t).outcome == Applied {
      forall c | c in s'.clients ensures s'.clients[c].totalLocks as int == |OpenDisputes(s', c)| {
        if c == t.clientId {
          assert OpenDisputes(s', c) == OpenDisputes(s, c) + {t.txId};
          SubsetSize(OpenDisputes(s, c), s.transactions.Keys);
        } else {
          assert OpenDisputes(s', c) == OpenDisputes(s, c);
        }
      }
    }
  }

  /** A resolve closes one open dispute and removes one lock, which is positive because that dispute was open. */
  lemma ResolveTracksLocks(s: State, t: Transaction)
    requires LocksTrackDisputes(s)
    ensures LocksTrackDisputes(ResolveStep(s, t).state)
  {
    var s' := ResolveStep(s, t).state;
    if ResolveStep(s, t).outcome == Applied {
      forall c | c in s'.clients ensures s'.clients[c].totalLocks as int == |OpenDisputes(s', c)| {
        if c == t.clientId {
          assert OpenDisputes(s', c) == OpenDisputes(s, c) - {t.txId};
        } else {
          assert OpenDisputes(s', c) == OpenDisputes(s, c);
        }
      }
    }
  }

  /** A chargeback changes neither dispute flags nor lock counters. */
  lemma ChargebackTracksLocks(s: State, t: Transaction)
    requires LocksTrackDisputes(s)
    ensures LocksTrackDisputes(ChargebackStep(s, t).state)
  {
  }

  /**
   * One record keeps the lock counters equal to the open-dispute counts,
   * provided the record itself is not flagged disputed (a row of the
   * four-column input never is) and the ledger is below the counter's
   * ceiling, so no dispute saturates.
   */
  lemma StepTracksLocks(s: State, t: Transaction)
    requires Valid(s) && LocksTrackDisputes(s)
    requires !t.isDisputed
    requires |s.transactions| < U16_MAX
    ensures LocksTrackDisputes(DispatchStep(s, t).state)
  {
    match KindOf(t.txType)
    case Deposit => DepositTracksLocks(s, t);
    case Withdrawal => WithdrawalTracksLocks(s, t);
    case Dispute => DisputeTracksLocks(s, t);
    case Resolve => ResolveTracksLocks(s, t);
    case Chargeback => ChargebackTracksLocks(s, t);
    case Unknown(_) =>
  }

  /**
   * Over a whole feed: when the ledger size plus the number of records stays
   * below the counter's ceiling, every account's lock counter equals
   * its number of open disputes, so an account is locked exactly when one of
   * its transactions is under dispute.
   */
  lemma {:induction false} RunTracksLocks(s: State, records: seq<Transaction>)
    requires Valid(s) && LocksTrackDisputes(s)
    requires |s.transactions| + |records| < U16_MAX
    requires forall i | 0 <= i < |records| :: !records[i].isDisputed
    ensures Run(s, records).Some? ==> LocksTrackDisputes(Run(s, records).value)
    decreases |records|
  {
    if records != [] {
      var step := DispatchStep(s, records[0]);
      if step.outcome != Panicked {
        StepTracksLocks(s, records[0]);
        assert |step.state.transactions| <= |s.transactions| + 1 by {
          if step.state.transactions.Keys != s.transactions.Keys {
            assert step.state.transactions.Keys == s.transactions.Keys + {records[0].txId};
          }
        }
        RunTracksLocks(step.state, records[1..]);
      }
    }
  }

  /** Whether `t` is a resolve of entry `x` by client `c`: the only record that clears the entry's flag. */
  predicate ResolvesEntry(t: Transaction, x: TxId, c: ClientId) {
    KindOf(t.txType) == Resolve && t.txId == x && t.clientId == c
  }

  /**
   * A disputed entry stays in the ledger, disputed and owned by the same
   * client, under every record other than a resolve of it by that client.
   */
  lemma StepKeepsDispute(s: State, t: Transaction, x: TxId, c: ClientId)
    requires x in s.transactions && s.transactions[x].isDisputed && s.transactions[x].clientId == c
    requires !ResolvesEntry(t, x, c)
    ensures var s' := DispatchStep(s, t).state;
      x in s'.transactions && s'.transactions[x].isDisputed && s'.transactions[x].clientId == c
  {
  }

  /**
   * With lock tracking, a client that has a disputed entry stays locked
   * through any feed that does not resolve that entry (undisputed rows,
   * ledger size plus feed length below the counter's ceiling).
   */
  lemma {:induction false} DisputeKeepsLocked(s: State, records: seq<Transaction>, x: TxId, c: ClientId)
    requires Valid(s) && LocksTrackDisputes(s)
    requires x in s.transactions && s.transactions[x].isDisputed && s.transactions[x].clientId == c
    requires |s.transactions| + |records| < U16_MAX
    requires forall i | 0 <= i < |records| :: !records[i].isDisputed && !ResolvesEntry(records[i], x, c)
    ensures Run(s, records).Some? ==> c in Run(s, records).value.clients && Run(s, records).value.clients[c].Locked()
    decreases |records|
  {
    if records == [] {
      assert x in OpenDisputes(s, c);
      LockedIffOpenDispute(s, c);
    } else {
      var step := DispatchStep(s, records[0]);
      if step.outcome != Panicked {
        StepTracksLocks(s, records[0]);
        StepKeepsDispute(s, records[0], x, c);
        assert |step.state.transactions| <= |s.transactions| + 1 by {
          if step.state.transactions.Keys != s.transactions.Keys {
            assert step.state.transactions.Keys == s.transactions.Keys + {records[0].txId};
          }
        }
        DisputeKeepsLocked(step.state, records[1..], x, c);
      }
    }
  }

  /**
   * When locks track disputes, a chargeback leaves its account locked: the
   * entry stays disputed, so after any later feed that does not resolve that
   * same transaction the account is still locked and refuses every deposit
   * and withdrawal.
   */
  lemma ChargebackLeavesLocked(s: State, t: Transaction, records: seq<Transaction>)
    requires Valid(s) && LocksTrackDisputes(s)
    requires ChargebackStep(s, t).outcome == Applied
    requires |s.transactions| + |records| < U16_MAX
    requires forall i | 0 <= i < |records| :: !records[i].isDisputed && !ResolvesEntry(records[i], t.txId, t.clientId)
    ensures ChargebackStep(s, t).state.clients[t.clientId].Locked()
    ensures var after := Run(ChargebackStep(s, t).state, records);
      after.Some? ==>
        && t.clientId in after.value.clients
        && after.value.clients[t.clientId].Locked()
        && forall d: Transaction | d.clientId == t.clientId ::
             && DepositStep(after.value, d).outcome != Applied
             && WithdrawalStep(after.value, d).outcome != Applied
  {
    var s' := ChargebackStep(s, t).state;
    ChargebackTracksLocks(s, t);
    assert t.txId in OpenDisputes(s', t.clientId);
    LockedIffOpenDispute(s', t.clientId);
    DisputeKeepsLocked(s', records, t.txId, t.clientId);
  }

  /**
   * Only a record of a balance-affecting type without an amount can panic:
   * a feed whose deposits and withdrawals all carry an amount runs to the
   * end. In particular the unwraps on ledger entries never fail.
   */
  lemma {:induction false} RunCompletes(s: State, records: seq<Transaction>)
    requires LedgerWellFormed(s)
    requires forall i | 0 <= i < |records| ::
      KindOf(records[i].txType) in {Deposit, Withdrawal} ==> records[i].amount.Some?
    ensures Run(s, records).Some?
    decreases |records|
  {
    if records != [] {
      var step := DispatchStep(s, records[0]);
      assert step.outcome != Panicked;
      RunCompletes(step.state, records[1..]);
    }
  }
}
