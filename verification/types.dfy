/**
 * Values shared by the transaction state machine: the integer widths of the
 * Rust program, the transaction record, the per-client balance record, the
 * two tables (ledger and account table) and the result of one handler.
 *
 * Amounts are exact integers (fixed-point units) where the program uses
 * `f64`, so the balance identity can be stated without rounding.
 */
module Types {

  const U16_MAX: int := 0xFFFF

  /** Rust `u16`: client identifiers and the lock counter. */
  newtype U16 = x: int | 0 <= x <= 0xFFFF

  /** Rust `u32`: transaction identifiers. */
  newtype U32 = x: int | 0 <= x <= 0xFFFF_FFFF

  type ClientId = U16
  type TxId = U32

  datatype Option<T> = None | Some(value: T)

  /** `checked_add(1).unwrap_or(u16::MAX)`: one more, but never past 65535. */
  function SaturatingInc(n: U16): (r: U16)
    ensures n as int < U16_MAX ==> r as int == n as int + 1
    ensures n as int == U16_MAX ==> r == n
  {
    if (n as int) < U16_MAX then n + 1 else n
  }

  /** `checked_sub(1).unwrap_or(0)`: one less, but never below 0. */
  function SaturatingDec(n: U16): (r: U16)
    ensures n > 0 ==> r as int == n as int - 1
    ensures n == 0 ==> r == 0
  {
    if n > 0 then n - 1 else 0
  }

  /** The record kinds the dispatch recognises; any other `type` column is `Unknown`. */
  datatype Kind = Deposit | Withdrawal | Dispute | Resolve | Chargeback | Unknown(name: string)

  const KnownNames: set<string> := {"deposit", "withdrawal", "dispute", "resolve", "chargeback"}

  /** The literal spelling a kind is written with in the `type` column. */
  function KindName(k: Kind): string {
    match k
    case Deposit => "deposit"
    case Withdrawal => "withdrawal"
    case Dispute => "dispute"
    case Resolve => "resolve"
    case Chargeback => "chargeback"
    case Unknown(name) => name
  }

  /**
   * The `match transaction.tx_type.as_str()` of the dispatch: exact,
   * case-sensitive comparison against the five literal names.
   */
  function KindOf(name: string): (k: Kind)
    ensures KindName(k) == name
    ensures k.Unknown? <==> name !in KnownNames
  {
    if name == "deposit" then Deposit
    else if name == "withdrawal" then Withdrawal
    else if name == "dispute" then Dispute
    else if name == "resolve" then Resolve
    else if name == "chargeback" then Chargeback
    else Unknown(name)
  }

  /**
   * One decoded record, and also a ledger entry: the program stores the
   * decoded record itself in the ledger. `amount` is optional because
   * dispute, resolve and chargeback rows leave it empty.
   */
  datatype Transaction = Transaction(
    txId: TxId,
    txType: string,
    clientId: ClientId,
    amount: Option<int>,
    isDisputed: bool)

  /** One client's balances and the number of disputes that currently lock it. */
  datatype ClientData = ClientData(available: int, held: int, total: int, totalLocks: U16)
  {
    /** The balance identity `total == available + held`. */
    predicate Balanced() {
      total == available + held
    }

    /** An account with a positive lock count refuses deposits and withdrawals. */
    predicate Locked() {
      totalLocks > 0
    }
  }

  /** The two tables the handlers share. */
  datatype State = State(transactions: map<TxId, Transaction>, clients: map<ClientId, ClientData>)

  /** The tables as `read_csv` creates them, before the first record. */
  function Empty(): State {
    State(map[], map[])
  }

  /** Why a record was rejected; one constructor per error message of the program. */
  datatype Reason =
    | DuplicateId          // "Transaction ID already exists"
    | NonPositiveAmount    // "zero or negative balance"
    | AccountLocked        // "locked account"
    | NegativeAvailable    // "withdraw with negative balance"
    | InsufficientFunds    // "withdraw with insufficient balance"
    | NoAccount            // "nonexistent account" / "no client associated"
    | NoSuchTransaction    // "There is no transaction"
    | AlreadyDisputed      // "is already disputed"
    | NotDisputed          // "is not disputed"
    | ClientMismatch       // "disputed by an unrelated user"
    | UnknownType          // the `_ => continue` arm of the dispatch

  /**
   * The result of one record: applied, rejected (the run goes on), or a
   * panic of an `amount.unwrap()` on an absent amount (the run dies).
   */
  datatype Outcome = Applied | Rejected(reason: Reason) | Panicked

  /** A handler's outcome together with the tables after it. */
  datatype Step = Step(outcome: Outcome, state: State)

  /** Every account satisfies the balance identity. */
  ghost predicate AllBalanced(s: State) {
    forall c | c in s.clients :: s.clients[c].Balanced()
  }

  /**
   * What the ledger's construction guarantees: each entry sits under its own
   * id, carries a positive amount, and belongs to a client that has an
   * account.
   */
  ghost predicate LedgerWellFormed(s: State) {
    forall id | id in s.transactions ::
      && s.transactions[id].txId == id
      && s.transactions[id].amount.Some?
      && s.transactions[id].amount.value > 0
      && s.transactions[id].clientId in s.clients
  }

  ghost predicate Valid(s: State) {
    AllBalanced(s) && LedgerWellFormed(s)
  }

  /** The client's account, or the zeroed account a first deposit starts from. */
  function AccountOf(s: State, c: ClientId): ClientData {
    if c in s.clients then s.clients[c] else ClientData(0, 0, 0, 0)
  }
}
