# Transaction state machine of a payments-engine toy

This project models the core of a small Rust program that reads a feed of
client transactions (`deposit`, `withdrawal`, `dispute`, `resolve`,
`chargeback`) and prints each client's final balances. The core is the state
machine in `src/main.rs`:

- the ledger `transactions_map: HashMap<u32, Transaction>`, keyed by transaction id;
- the account table `client_data_map: HashMap<u16, ClientData>`, holding
  `available`, `held`, `total` and a saturating `u16` lock counter;
- five handlers, `try_deposit`, `try_withdrawal`, `try_dispute`, `try_resolve`
  and `try_chargeback`, each of which either rejects a record or updates the
  two tables;
- the per-record `match` on the `type` column inside `read_csv`, applied in
  feed order.

Layout:

- `types.dfy` (module `Types`): `u16`/`u32` as newtypes, saturating
  increment and decrement, the record kind with an `Unknown` constructor, the
  `Transaction` and `ClientData` records, the two tables as a `State` value,
  and the invariants `AllBalanced` (`total == available + held` for every
  account) and `LedgerWellFormed` (every entry sits under its own id, carries
  a positive amount and belongs to a client with an account).
- `rules.dfy` (module `Rules`): each handler as a function from the tables
  and a record to an `Outcome` and the new tables, the dispatch, and `Run`,
  the fold of a feed. Their contracts state the guards (as if-and-only-if),
  that a refused record changes nothing, what changes on success and what
  stays put, and that both invariants are kept.
- `processor.dfy` (module `Processor`): class `Bank` owns the two maps and
  updates them in place, one method per handler, each proved equal to its
  function; `ReadFeed` is the loop of `read_csv`.
- `properties.dfy` (module `Properties`): the dispute/resolve round trip,
  what a chargeback leaves behind, the lock counter as the number of open
  disputes, and a feed that cannot panic.

Modelling choices:

- Amounts are exact integers (fixed-point units, e.g. ten-thousandths)
  instead of `f64`, so the balance identity holds exactly.
- A decoded record is a `Transaction` with its `type` column kept as a
  string; `KindOf` performs the exact, case-sensitive match on the five
  names, and every other string is `Unknown(name)`, which the dispatch skips.
- The program stores the decoded record itself in the ledger, `is_disputed`
  included; the model does the same.
- `transaction.amount.unwrap()` on a deposit or withdrawal without an amount
  (src/main.rs:163, 208) panics and ends the whole run with no output. The
  model keeps this as a third outcome, `Panicked`, reached after the
  duplicate-id guard and before the amount guard, exactly where the code
  unwraps; `Run` and `ReadFeed` then return `None`. `RunCompletes` proves
  that a feed whose deposits and withdrawals all carry an amount never
  panics, so the unwraps on ledger entries (src/main.rs:267, 313, 358) never
  fail.
- A chargeback leaves the entry disputed and the lock counter as it was, so
  the same chargeback can fire again and a later resolve of that transaction
  still passes its guards and removes one lock, which unlocks the account
  when that was its only open dispute. The comment at
  src/main.rs:336-337 calls a charged-back account permanently frozen; the
  model follows the code, and `ChargebackRepeats` and
  `ResolveAfterChargeback` state what the code does instead.
- The withdrawal guard `available < 0` (src/main.rs:219) can only reject a
  record that `available < amount` would also reject, because the amount is
  positive by then; only the reported reason differs. `WithdrawalStep`'s
  acceptance condition therefore mentions only `available >= amount`.

## Model

| member | source | states |
|---|---|---|
| `Types.SaturatingInc` | src/main.rs:271 | the lock counter grows by one and sticks at 65535 instead of overflowing |
| `Types.SaturatingDec` | src/main.rs:317 | the lock counter shrinks by one and sticks at 0 instead of underflowing |
| `Types.KindOf` | src/main.rs:61-101 | the type column maps back to the same string (nothing is lost), and it is `Unknown` exactly when it is none of the five literal names |
| `Rules.DepositStep` | src/main.rs:153-193 | a known id is refused; a missing amount panics; the deposit is applied iff the id is new, the amount positive and the account (if any) unlocked; a refused record changes nothing; on success only this client's account changes (created from zero if new, `available` and `total` up by the amount, locks 0) and the ledger gains exactly this entry; balance identity and ledger well-formedness are kept |
| `Rules.WithdrawalStep` | src/main.rs:198-239 | a known id is refused; a missing amount panics; applied iff id new, amount positive, account exists, unlocked and `available >= amount`; refused changes nothing; on success `available` (still non-negative) and `total` drop by the amount, nothing else changes, the ledger gains this entry; no account is created; both invariants kept |
| `Rules.ReferenceGuard` | src/main.rs:253-264 | no reason is returned iff the referenced entry exists, has the required dispute flag, belongs to the record's client, and the client has an account; otherwise one of those five reasons |
| `Rules.DisputeStep` | src/main.rs:247-285 | applied iff the entry exists, is undisputed, belongs to the client and the account exists; refused changes nothing; a well-formed ledger never panics and never hits the missing-account case; on success only that entry's flag becomes true and only that account changes: amount moved from `available` to `held`, `total` unchanged, one saturating lock added; both invariants kept |
| `Rules.ResolveStep` | src/main.rs:291-331 | as for dispute but requires a disputed entry; on success the flag is cleared, the amount moves back from `held` to `available`, `total` unchanged, one saturating lock removed; both invariants kept |
| `Rules.ChargebackStep` | src/main.rs:338-373 | as for resolve; on success the ledger is untouched (the entry stays disputed), `held` and `total` drop by the amount, `available` and the lock counter stay; both invariants kept |
| `Rules.DispatchStep` | src/main.rs:61-102 | an unknown type changes nothing; any record keeps both invariants; ledger entries are never removed and change only their dispute flag; only an applied deposit or withdrawal adds a ledger entry (its own id); only an applied deposit adds an account (its own client); with a well-formed ledger only a deposit or withdrawal without an amount panics |
| `Rules.Run` | src/main.rs:57-103 | folding a feed keeps both invariants, never removes an account, and keeps every ledger entry except for its dispute flag |
| `Processor.Bank.constructor` | src/main.rs:53-54 | both tables start empty |
| `Processor.Bank.TryDeposit` | src/main.rs:153-193 | updates the two maps in place exactly as `DepositStep` says; a refused record leaves the object unchanged |
| `Processor.Bank.TryWithdrawal` | src/main.rs:198-239 | in place, exactly as `WithdrawalStep`; refused leaves the object unchanged |
| `Processor.Bank.TryDispute` | src/main.rs:247-285 | in place, exactly as `DisputeStep`; refused leaves the object unchanged |
| `Processor.Bank.TryResolve` | src/main.rs:291-331 | in place, exactly as `ResolveStep`; refused leaves the object unchanged |
| `Processor.Bank.TryChargeback` | src/main.rs:338-373 | in place, exactly as `ChargebackStep`; refused leaves the object unchanged |
| `Processor.ReadFeed` | src/main.rs:53-108 | the record loop returns the account table `Run` computes from empty tables, or nothing when a record panics; every returned account satisfies `total == available + held` |
| `Properties.DisputeResolveRoundTrip` | src/main.rs:267-317 | an applied dispute followed by a resolve of the same transaction by the same client restores both tables exactly, when the lock counter was below 65535 |
| `Properties.DisputeResolveSaturated` | src/main.rs:271-317 | at 65535 locks the same round trip restores everything except the lock counter, which ends at 65534 |
| `Properties.ChargebackRepeats` | src/main.rs:344-361 | a second identical chargeback passes its guards again and takes the amount from `held` and `total` a second time |
| `Properties.ResolveAfterChargeback` | src/main.rs:299-361 | a resolve after a chargeback of the same transaction is applied: it credits `available`, takes the amount from `held` a second time, and removes a lock |
| `Properties.LockedIffOpenDispute` | src/main.rs:243-290 | when lock counters equal open-dispute counts, an account is locked exactly when it has an open dispute |
| `Properties.DepositTracksLocks` | src/main.rs:159-190 | a deposit of an undisputed record, over a well-formed ledger, keeps every lock counter equal to its account's number of open disputes |
| `Properties.WithdrawalTracksLocks` | src/main.rs:204-236 | a withdrawal of an undisputed record keeps lock counters equal to open-dispute counts |
| `Properties.DisputeTracksLocks` | src/main.rs:253-271 | a dispute keeps lock counters equal to open-dispute counts while the ledger is smaller than 65535 |
| `Properties.ResolveTracksLocks` | src/main.rs:299-317 | a resolve keeps lock counters equal to open-dispute counts |
| `Properties.ChargebackTracksLocks` | src/main.rs:344-360 | a chargeback keeps lock counters equal to open-dispute counts |
| `Properties.StepTracksLocks` | src/main.rs:61-102 | any single undisputed record keeps lock counters equal to open-dispute counts while the ledger is smaller than 65535 |
| `Properties.RunTracksLocks` | src/main.rs:57-103 | over a feed of undisputed records with fewer than 65535 − (ledger size) records, lock counters stay equal to open-dispute counts |
| `Properties.ChargebackLeavesLocked` | src/main.rs:335-361 | with lock tracking, a chargeback leaves its account locked; after any later feed (undisputed rows, fewer than 65535 − (ledger size) records) that contains no resolve of that transaction by its client, the account is still locked and every deposit or withdrawal for that client is refused |
| `Properties.StepKeepsDispute` | src/main.rs:159-370 | a disputed entry stays in the ledger, disputed and owned by the same client, under every record except a resolve of it by that client |
| `Properties.DisputeKeepsLocked` | src/main.rs:57-103 | with lock tracking, a client with a disputed entry stays locked through any feed (undisputed rows, fewer than 65535 − (ledger size) records) without a resolve of that entry by that client |
| `Properties.RunCompletes` | src/main.rs:57-103 | a feed whose deposit and withdrawal records all carry an amount never panics, starting from a well-formed ledger |

## Left out

- Reading the CSV file, trimming and deserialising rows, the argument check and the fatal `row?` decode error (src/main.rs:43-59): file I/O and library code; the model starts from a sequence of decoded records.
- `write_csv` and its 4-digit rounding (src/main.rs:113-142): output formatting to standard output.
- `main` and `process::exit` (src/main.rs:381-396): process plumbing; a panic is modelled as `ReadFeed` returning `None`.
- `f64` arithmetic: amounts are exact integers. Rounding drift, infinities and NaN are not modelled; in particular a NaN amount passes the `amount <= 0.0` guards in the program.
- `HashMap` iteration order, which only affects the order of output rows.
- Error message texts: each is represented by a `Reason` constructor; the messages are never printed by the program.
- `Properties.RunTracksLocks`: stated only for feeds with fewer than 65535 − (ledger size) records, which bounds the ledger below 65535 entries throughout; a longer feed over a small ledger is not covered, although only disputes can saturate a counter; beyond the ceiling a saturated counter can drift from the number of open disputes, as `Properties.DisputeResolveSaturated` shows.
- `Properties.DisputeKeepsLocked` and `Properties.ChargebackLeavesLocked`: the feed-level lock guarantee carries the same length bound as `Properties.RunTracksLocks`, on which it rests.
- The lock-tracking lemmas (`Properties.DepositTracksLocks`, `Properties.WithdrawalTracksLocks`, `Properties.StepTracksLocks`, `Properties.RunTracksLocks`): stated only for records whose `is_disputed` flag is clear; a deposit or withdrawal stored with the flag already set adds an open dispute without a lock.
