/**
 * The handlers as the program runs them: two tables owned by one object and
 * updated in place, one method per `try_*` function, and the record loop of
 * `read_csv`. Each method is proved to do exactly what the matching function
 * of module Rules describes.
 */
module Processor {
  import opened Types
  import opened Rules

  /** The ledger (`transactions_map`) and the account table (`client_data_map`). */
  class Bank {
    var transactions: map<TxId, Transaction>
    var clients: map<ClientId, ClientData>

    /** The two tables as a value. */
    function Snapshot(): State
      reads this
    {
      State(transactions, clients)
    }

    constructor ()
      ensures Snapshot() == Empty()
    {
      transactions := map[];
      clients := map[];
    }

    method TryDeposit(t: Transaction) returns (o: Outcome)
      modifies this
      ensures Step(o, Snapshot()) == DepositStep(old(Snapshot()), t)
      ensures !o.Applied? ==> unchanged(this)
    {
      if t.txId in transactions {
        return Rejected(DuplicateId);
      }
      if t.amount.None? {
        return Panicked;
      }
      var amount := t.amount.value;
      if amount <= 0 {
        return Rejected(NonPositiveAmount);
      }
      if t.clientId in clients {
        var cd := clients[t.clientId];
        if cd.totalLocks > 0 {
          return Rejected(AccountLocked);
        }
        clients := clients[t.clientId := cd.(available := cd.available + amount, total := cd.total + amount)];
      } else {
        clients := clients[t.clientId := ClientData(amount, 0, amount, 0)];
      }
      transactions := transactions[t.txId := t];
      o := Applied;
    }

    method TryWithdrawal(t: Transaction) returns (o: Outcome)
      modifies this
      ensures Step(o, Snapshot()) == WithdrawalStep(old(Snapshot()), t)
      ensures !o.Applied? ==> unchanged(this)
    {
      if t.txId in transactions {
        return Rejected(DuplicateId);
      }
      if t.amount.None? {
        return Panicked;
      }
      var amount := t.amount.value;
      if amount <= 0 {
        return Rejected(NonPositiveAmount);
      }
      if t.clientId in clients {
        var cd := clients[t.clientId];
        if cd.totalLocks > 0 {
          return Rejected(AccountLocked);
        }
        if cd.available < 0 {
          return Rejected(NegativeAvailable);
        }
        if cd.available >= amount {
          clients := clients[t.clientId := cd.(available := cd.available - amount, total := cd.total - amount)];
        } else {
          return Rejected(InsufficientFunds);
        }
      } else {
        return Rejected(NoAccount);
      }
      transactions := transactions[t.txId := t];
      o := Applied;
    }

    method TryDispute(t: Transaction) returns (o: Outcome)
      modifies this
      ensures Step(o, Snapshot()) == DisputeStep(old(Snapshot()), t)
      ensures !o.Applied? ==> unchanged(this)
    {
      if t.txId in transactions {
        var te := transactions[t.txId];
        if te.isDisputed {
          return Rejected(AlreadyDisputed);
        } else if te.clientId != t.clientId {
          return Rejected(ClientMismatch);
        }
        if t.clientId in clients {
          var cd := clients[t.clientId];
          if te.amount.None? {
            return Panicked;
          }
          var amount := te.amount.value;
          transactions := transactions[t.txId := te.(isDisputed := true)];
          clients := clients[t.clientId := cd.(available := cd.available - amount, held := cd.held + amount,
                                               totalLocks := SaturatingInc(cd.totalLocks))];
        } else {
          return Rejected(NoAccount);
        }
      } else {
        return Rejected(NoSuchTransaction);
      }
      o := Applied;
    }

    method TryResolve(t: Transaction) returns (o: Outcome)
      modifies this
      ensures Step(o, Snapshot()) == ResolveStep(old(Snapshot()), t)
      ensures !o.Applied? ==> unchanged(this)
    {
      if t.txId in transactions {
        var te := transactions[t.txId];
        if !te.isDisputed {
          return Rejected(NotDisputed);
        } else if te.clientId != t.clientId {
          return Rejected(ClientMismatch);
        }
        if t.clientId in clients {
          var cd := clients[t.clientId];
          if te.amount.None? {
            return Panicked;
          }
          var amount := te.amount.value;
          transactions := transactions[t.txId := te.(isDisputed := false)];
          clients := clients[t.clientId := cd.(available := cd.available + amount, held := cd.held - amount,
                                               totalLocks := SaturatingDec(cd.totalLocks))];
        } else {
          return Rejected(NoAccount);
        }
      } else {
        return Rejected(NoSuchTransaction);
      }
      o := Applied;
    }

    method TryChargeback(t: Transaction) returns (o: Outcome)
      modifies this
      ensures Step(o, Snapshot()) == ChargebackStep(old(Snapshot()), t)
      ensures !o.Applied? ==> unchanged(this)
    {
      if t.txId in transactions {
        var te := transactions[t.txId];
        if !te.isDisputed {
          return Rejected(NotDisputed);
        } else if te.clientId != t.clientId {
          return Rejected(ClientMismatch);
        }
        if t.clientId in clients {
          var cd := clients[t.clientId];
          if te.amount.None? {
            return Panicked;
          }
          var amount := te.amount.value;
          clients := clients[t.clientId := cd.(held := cd.held - amount, total := cd.total - amount)];
        } else {
          return Rejected(NoAccount);
        }
      } else {
        return Rejected(NoSuchTransaction);
      }
      o := Applied;
    }
  }

  /**
   * `read_csv` from the first decoded record on: fresh tables, every record
   * dispatched on its type in feed order, rejected records skipped. Returns
   * the account table, or `None` when a record panics and the run dies.
   */
  method ReadFeed(records: seq<Transaction>) returns (r: Option<map<ClientId, ClientData>>)
    ensures r.Some? <==> Run(Empty(), records).Some?
    ensures r.Some? ==> r.value == Run(Empty(), records).value.clients
    ensures r.Some? ==> forall c | c in r.value :: r.value[c].Balanced()
  {
    var bank := new Bank();
    var i := 0;
    while i < |records|
      invariant 0 <= i <= |records|
      invariant Run(Empty(), records) == Run(bank.Snapshot(), records[i..])
    {
      var t := records[i];
      ghost var before := bank.Snapshot();
      var o: Outcome;
      match KindOf(t.txType) {
        case Deposit => o := bank.TryDeposit(t);
        case Withdrawal => o := bank.TryWithdrawal(t);
        case Dispute => o := bank.TryDispute(t);
        case Resolve => o := bank.TryResolve(t);
        case Chargeback => o := bank.TryChargeback(t);
        case Unknown(_) => o := Rejected(UnknownType);
      }
      assert Step(o, bank.Snapshot()) == DispatchStep(before, t);
      if o == Panicked {
        return None;
      }
      assert records[i..][1..] == records[i + 1..];
      i := i + 1;
    }
    assert Valid(Empty());
    return Some(bank.clients);
  }
}
