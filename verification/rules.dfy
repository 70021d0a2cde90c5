/**
 * The rules of the transaction state machine as functions on the two tables:
 * one function per handler (`try_deposit`, `try_withdrawal`, `try_dispute`,
 * `try_resolve`, `try_chargeback`), the per-record dispatch, and the fold of
 * a whole feed. The class in module Processor performs the same steps in
 * place and is proved equal to these functions.
 */
module Rules {
  import opened Types

  /** Every account other than `c` is still present and unchanged. */
  ghost predicate OtherAccountsKept(s: State, s': State, c: ClientId) {
    forall c' | c' in s.clients && c' != c :: c' in s'.clients && s'.clients[c'] == s.clients[c']
  }

  /** Every ledger entry is still present, with only its dispute flag possibly changed. */
  ghost predicate EntriesKept(s: State, s': State) {
    forall id | id in s.transactions ::
      id in s'.transactions && s'.transactions[id].(isDisputed := false) == s.transactions[id].(isDisputed := false)
  }

  /**
   * `try_deposit`: reject a known id, panic on an absent amount, reject a
   * non-positive amount or a locked account; otherwise credit `available`
   * and `total` (starting from a zeroed account for an unseen client) and
   * record the transaction.
   */
  function DepositStep(s: State, t: Transaction): (r: Step)
    ensures t.txId in s.transactions ==> r.outcome == Rejected(DuplicateId)
    ensures r.outcome == Panicked <==> t.txId !in s.transactions && t.amount.None?
    ensures r.outcome == Applied <==>
      && t.txId !in s.transactions
      && t.amount.Some? && t.amount.value > 0
      && !AccountOf(s, t.clientId).Locked()
    ensures !r.outcome.Applied? ==> r.state == s
    ensures r.outcome.Applied? ==>
      && r.state.transactions.Keys == s.transactions.Keys + {t.txId}
      && r.state.transactions[t.txId] == t
      && (forall id | id in s.transactions :: r.state.transactions[id] == s.transactions[id])
      && r.state.clients.Keys == s.clients.Keys + {t.clientId}
      && OtherAccountsKept(s, r.state, t.clientId)
      && var before, after := AccountOf(s, t.clientId), r.state.clients[t.clientId];
      && after.available == before.available + t.amount.value
      && after.held == before.held
      && after.total == before.total + t.amount.value
      && after.totalLocks == 0
    ensures AllBalanced(s) ==> AllBalanced(r.state)
    ensures LedgerWellFormed(s) ==> LedgerWellFormed(r.state)
  {
    if t.txId in s.transactions then Step(Rejected(DuplicateId), s)
    else if t.amount.None? then Step(Panicked, s)
    else
      var amount := t.amount.value;
      if amount <= 0 then Step(Rejected(NonPositiveAmount), s)
      else if t.clientId in s.clients && s.clients[t.clientId].Locked() then Step(Rejected(AccountLocked), s)
      else
        var cd := if t.clientId in s.clients
          then s.clients[t.clientId].(available := s.clients[t.clientId].available + amount,
                                      total := s.clients[t.clientId].total + amount)
          else ClientData(amount, 0, amount, 0);
        Step(Applied, State(s.transactions[t.txId := t], s.clients[t.clientId := cd]))
  }

  /**
   * `try_withdrawal`: reject a known id, panic on an absent amount, reject a
   * non-positive amount, a missing or locked account, a negative `available`
   * or one smaller than the amount; otherwise debit `available` and `total`
   * and record the transaction.
   */
  function WithdrawalStep(s: State, t: Transaction): (r: Step)
    ensures t.txId in s.transactions ==> r.outcome == Rejected(DuplicateId)
    ensures r.outcome == Panicked <==> t.txId !in s.transactions && t.amount.None?
    ensures r.outcome == Applied <==>
      && t.txId !in s.transactions
      && t.amount.Some? && t.amount.value > 0
      && t.clientId in s.clients
      && !s.clients[t.clientId].Locked()
      && s.clients[t.clientId].available >= t.amount.value
    ensures !r.outcome.Applied? ==> r.state == s
    ensures r.outcome.Applied? ==>
      && r.state.transactions.Keys == s.transactions.Keys + {t.txId}
      && r.state.transactions[t.txId] == t
      && (forall id | id in s.transactions :: r.state.transactions[id] == s.transactions[id])
      && r.state.clients.Keys == s.clients.Keys
      && OtherAccountsKept(s, r.state, t.clientId)
      && var before, after := s.clients[t.clientId], r.state.clients[t.clientId];
      && after.available == before.available - t.amount.value >= 0
      && after.held == before.held
      && after.total == before.total - t.amount.value
      && after.totalLocks == before.totalLocks
    ensures AllBalanced(s) ==> AllBalanced(r.state)
    ensures LedgerWellFormed(s) ==> LedgerWellFormed(r.state)
  {
    if t.txId in s.transactions then Step(Rejected(DuplicateId), s)
    else if t.amount.None? then Step(Panicked, s)
    else
      var amount := t.amount.value;
      if amount <= 0 then Step(Rejected(NonPositiveAmount), s)
      else if t.clientId !in s.clients then Step(Rejected(NoAccount), s)
      else
        var cd := s.clients[t.clientId];
        if cd.Locked() then Step(Rejected(AccountLocked), s)
        else if cd.available < 0 then Step(Rejected(NegativeAvailable), s)
        else if cd.available < amount then Step(Rejected(InsufficientFunds), s)
        else
          var cd' := cd.(available := cd.available - amount, total := cd.total - amount);
          Step(Applied, State(s.transactions[t.txId := t], s.clients[t.clientId := cd']))
  }

  /**
   * The four guards shared by dispute, resolve and chargeback: the
   * referenced entry exists, its dispute flag is `wantDisputed`, it belongs
   * to the record's client, and that client has an account.
   */
  predicate Referable(s: State, t: Transaction, wantDisputed: bool) {
    && t.txId in s.transactions
    && s.transactions[t.txId].isDisputed == wantDisputed
    && s.transactions[t.txId].clientId == t.clientId
    && t.clientId in s.clients
  }

  /** The first of those guards to fail, in the order the program checks them. */
  function ReferenceGuard(s: State, t: Transaction, wantDisputed: bool): (r: Option<Reason>)
    ensures r.None? <==> Referable(s, t, wantDisputed)
    ensures r.Some? ==> r.value in {NoSuchTransaction, AlreadyDisputed, NotDisputed, ClientMismatch, NoAccount}
  {
    if t.txId !in s.transactions then Some(NoSuchTransaction)
    else if s.transactions[t.txId].isDisputed != wantDisputed then
      Some(if wantDisputed then NotDisputed else AlreadyDisputed)
    else if s.transactions[t.txId].clientId != t.clientId then Some(ClientMismatch)
    else if t.clientId !in s.clients then Some(NoAccount)
    else None
  }

  /**
   * `try_dispute`: flag the referenced entry as disputed, move its amount
   * from `available` to `held`, and add one (saturating) lock.
   */
  function DisputeStep(s: State, t: Transaction): (r: Step)
    ensures r.outcome == Applied <==> Referable(s, t, false) && s.transactions[t.txId].amount.Some?
    ensures r.outcome == Panicked <==> Referable(s, t, false) && s.transactions[t.txId].amount.None?
    ensures LedgerWellFormed(s) ==> r.outcome != Panicked && r.outcome != Rejected(NoAccount)
    ensures !r.outcome.Applied? ==> r.state == s
    ensures r.outcome.Applied? ==>
      && r.state.transactions.Keys == s.transactions.Keys
      && r.state.transactions[t.txId] == s.transactions[t.txId].(isDisputed := true)
      && (forall id | id in s.transactions && id != t.txId :: r.state.transactions[id] == s.transactions[id])
      && r.state.clients.Keys == s.clients.Keys
      && OtherAccountsKept(s, r.state, t.clientId)
      && var a, before, after := s.transactions[t.txId].amount.value, s.clients[t.clientId], r.state.clients[t.clientId];
      && after.available == before.available - a
      && after.held == before.held + a
      && after.total == before.total
      && after.totalLocks == SaturatingInc(before.totalLocks)
    ensures AllBalanced(s) ==> AllBalanced(r.state)
    ensures LedgerWellFormed(s) ==> LedgerWellFormed(r.state)
  {
    match ReferenceGuard(s, t, false)
    case Some(reason) => Step(Rejected(reason), s)
    case None =>
      var te := s.transactions[t.txId];
      if te.amount.None? then Step(Panicked, s)
      else
        var amount := te.amount.value;
        var cd := s.clients[t.clientId];
        var cd' := cd.(available := cd.available - amount, held := cd.held + amount,
                       totalLocks := SaturatingInc(cd.totalLocks));
        Step(Applied, State(s.transactions[t.txId := te.(isDisputed := true)], s.clients[t.clientId := cd']))
  }

  /**
   * `try_resolve`: clear the dispute flag, move the amount back from `held`
   * to `available`, and remove one (saturating) lock.
   */
  function ResolveStep(s: State, t: Transaction): (r: Step)
    ensures r.outcome == Applied <==> Referable(s, t, true) && s.transactions[t.txId].amount.Some?
    ensures r.outcome == Panicked <==> Referable(s, t, true) && s.transactions[t.txId].amount.None?
    ensures LedgerWellFormed(s) ==> r.outcome != Panicked && r.outcome != Rejected(NoAccount)
    ensures !r.outcome.Applied? ==> r.state == s
    ensures r.outcome.Applied? ==>
      && r.state.transactions.Keys == s.transactions.Keys
      && r.state.transactions[t.txId] == s.transactions[t.txId].(isDisputed := false)
      && (forall id | id in s.transactions && id != t.txId :: r.state.transactions[id] == s.transactions[id])
      && r.state.clients.Keys == s.clients.Keys
      && OtherAccountsKept(s, r.state, t.clientId)
      && var a, before, after := s.transactions[t.txId].amount.value, s.clients[t.clientId], r.state.clients[t.clientId];
      && after.available == before.available + a
      && after.held == before.held - a
      && after.total == before.total
      && after.totalLocks == SaturatingDec(before.totalLocks)
    ensures AllBalanced(s) ==> AllBalanced(r.state)
    ensures LedgerWellFormed(s) ==> LedgerWellFormed(r.state)
  {
    match ReferenceGuard(s, t, true)
    case Some(reason) => Step(Rejected(reason), s)
    case None =>
      var te := s.transactions[t.txId];
      if te.amount.None? then Step(Panicked, s)
      else
        var amount := te.amount.value;
        var cd := s.clients[t.clientId];
        var cd' := cd.(available := cd.available + amount, held := cd.held - amount,
                       totalLocks := SaturatingDec(cd.totalLocks));
        Step(Applied, State(s.transactions[t.txId := te.(isDisputed := false)], s.clients[t.clientId := cd']))
  }

  /**
   * `try_chargeback`: remove the referenced amount from `held` and `total`.
   * The entry stays disputed and the lock count is not touched.
   */
  function ChargebackStep(s: State, t: Transaction): (r: Step)
    ensures r.outcome == Applied <==> Referable(s, t, true) && s.transactions[t.txId].amount.Some?
    ensures r.outcome == Panicked <==> Referable(s, t, true) && s.transactions[t.txId].amount.None?
    ensures LedgerWellFormed(s) ==> r.outcome != Panicked && r.outcome != Rejected(NoAccount)
    ensures !r.outcome.Applied? ==> r.state == s
    ensures r.outcome.Applied? ==>
      && r.state.transactions == s.transactions
      && r.state.clients.Keys == s.clients.Keys
      && OtherAccountsKept(s, r.state, t.clientId)
      && var a, before, after := s.transactions[t.txId].amount.value, s.clients[t.clientId], r.state.clients[t.clientId];
      && after.available == before.available
      && after.held == before.held - a
      && after.total == before.total - a
      && after.totalLocks == before.totalLocks
    ensures AllBalanced(s) ==> AllBalanced(r.state)
    ensures LedgerWellFormed(s) ==> LedgerWellFormed(r.state)
  {
    match ReferenceGuard(s, t, true)
    case Some(reason) => Step(Rejected(reason), s)
    case None =>
      var te := s.transactions[t.txId];
      if te.amount.None? then Step(Panicked, s)
      else
        var amount := te.amount.value;
        var cd := s.clients[t.clientId];
        var cd' := cd.(held := cd.held - amount, total := cd.total - amount);
        Step(Applied, State(s.transactions, s.clients[t.clientId := cd']))
  }

  /**
   * The per-record `match` of `read_csv`: route the record to its handler by
   * its `type` column; an unrecognised type is skipped.
   */
  function DispatchStep(s: State, t: Transaction): (r: Step)
    ensures KindOf(t.txType).Unknown? ==> r == Step(Rejected(UnknownType), s)
    ensures !r.outcome.Applied? ==> r.state == s
    ensures Valid(s) ==> Valid(r.state)
    ensures EntriesKept(s, r.state)
    ensures r.state.transactions.Keys != s.transactions.Keys ==>
      && r.outcome.Applied?
      && KindOf(t.txType) in {Deposit, Withdrawal}
      && r.state.transactions.Keys == s.transactions.Keys + {t.txId}
    ensures s.clients.Keys <= r.state.clients.Keys
    ensures r.state.clients.Keys != s.clients.Keys ==>
      && r.outcome.Applied?
      && KindOf(t.txType) == Deposit
      && r.state.clients.Keys == s.clients.Keys + {t.clientId}
    ensures LedgerWellFormed(s) && r.outcome == Panicked ==>
      KindOf(t.txType) in {Deposit, Withdrawal} && t.amount.None?
  {
    match KindOf(t.txType)
    case Deposit => DepositStep(s, t)
    case Withdrawal => WithdrawalStep(s, t)
    case Dispute => DisputeStep(s, t)
    case Resolve => ResolveStep(s, t)
    case Chargeback => ChargebackStep(s, t)
    case Unknown(_) => Step(Rejected(UnknownType), s)
  }

  /**
   * The `for row in reader.deserialize()` loop: apply the records in order;
   * `None` when a record panics, which ends the whole run without output.
   */
  function Run(s: State, records: seq<Transaction>): (r: Option<State>)
    ensures Valid(s) && r.Some? ==> Valid(r.value)
    ensures r.Some? ==> EntriesKept(s, r.value) && s.clients.Keys <= r.value.clients.Keys
    decreases |records|
  {
    if records == [] then Some(s)
    else
      var step := DispatchStep(s, records[0]);
      if step.outcome == Panicked then None
      else Run(step.state, records[1..])
  }
}
