# Agent bookkeeping of the stock-trading simulation, in Dafny

This project models the integer bookkeeping at the heart of the agent engine of
a stock-market simulation (`src/entities/agents.rs` and `src/transaction.rs`):

- **Key codec** (`codec.dfy`): an (agent, company) pair of `u64` ids packed
  into one `u128` lookup key (`combine`) and unpacked again (`get_first`,
  `get_second`). `(a << 64) | b` is modelled as `a * 2^64 + b`, which is the
  same number because `b < 2^64`.
- **Share ledgers** (`ledger.dfy`, `agents.dfy`, `transactions.dfy`): the
  engine-wide `Holdings` map from packed key to share count and the per-agent
  `AgentHoldings` map from company to share count. Both are classes whose
  methods update a `map` field in place. `Ledger.Credit` and `Ledger.Debit`
  give the insert-or-add and check-then-decrement rules once, and both
  classes are proved against them. An absent key reads as zero.
- **Timeline** (`timelines.dfy`): a bounded ring buffer of (company,
  Buy/Sell) preference events with a `target_index` that marks the oldest
  slot after a partial-overflow add. A full-buffer add writes from it without
  moving it, so afterwards it need not mark the oldest slot. `Timeline.Add`
  keeps the source's three branches:
  1. Full buffer: an overwrite loop from `target_index`, wrapping, that does
     not move `target_index`.
  2. Room for all events: append.
  3. Partial overflow: append a prefix, copy the rest over the front of the
     buffer, and set `target_index` past it.

  The method is proved equal to the pure function `Timelines.Added`. The
  lemmas about `Added` state each branch, the kept invariant, and the fact
  that branches 2 and 3 keep the buffer, read from `target_index`, equal to
  the newest `cap` events in insertion order. `FullAddKeepsOrigin` shows that
  branch 1 does not keep that order, because it does not advance
  `target_index`. This is the source's behaviour and is kept as it is.
- **Sampling**: `get_rng` and `recency_bias` take their random draw as an
  explicit index argument with a range precondition. `RecencyIndex` is the
  exact index arithmetic of `recency_bias`, and `Timeline.RecencyBias` reads
  exactly that slot. The index is proved to stay in bounds, to land in the
  last `bias_size` positions of the buffer read from `target_index` on, and to
  be injective. So a uniform draw picks uniformly among those positions. They
  hold the newest events only while no add has hit a full buffer: after one,
  `FullAddKeepsOrigin` shows a window of one reading an older event.
- **Preferences**: one `Timeline` object per agent, all sharing one capacity. `Add`/`Sub` append
  `preference` copies of a Buy/Sell event to one agent's timeline, and
  `AgentNotFound` is returned for an unknown id.
- **`Agents.CanSell`**: the share check used before a sell.

Integer widths: ids and share counts are `u64` (`Codec.U64`), and packed keys
are `u128`. Where the source's `+=` on a `u64` count could overflow, the
model requires that it does not: a debug build panics there and a release
build wraps around. The same holds for the unchecked `-=` of
`AgentHoldings::pop_from_txn`.

The capacity `TIMELINE_SIZE_LIMIT` is a crate constant defined in a file that
is not part of this model. Each `Timeline` therefore fixes a positive `cap`
at construction, the preference table and `Agents` take the one capacity
all their timelines share, and the pure specification takes `cap` as a
parameter.

## Model

| member | source | states |
|---|---|---|
| `Codec.Combine` | src/entities/agents.rs:12-14 | the key's high 64 bits are the agent id and its low 64 bits the company id |
| `Codec.GetFirst` | src/entities/agents.rs:16-18 | the result is the high half: `a * 2^64 <= k < (a + 1) * 2^64` |
| `Codec.GetSecond` | src/entities/agents.rs:20-22 | the result is the low half: `k == GetFirst(k) * 2^64 + b` |
| `Codec.SplitCombine` | src/entities/agents.rs:12-22 | `get_first(combine(a, b)) == a` and `get_second(combine(a, b)) == b` for every pair of u64 |
| `Codec.CombineSplit` | src/entities/agents.rs:12-22 | every u128 key is `combine` of its two projections |
| `Codec.CombineInjective` | src/entities/agents.rs:12-22 | two pairs share a key exactly when they are equal |
| `Ledger.Credit` | src/entities/agents.rs:109-116 | insert-or-add: the key's count becomes old count (0 if absent) + n, it is now present, and every other key keeps its count |
| `Ledger.Debit` | src/entities/agents.rs:117-132 | refused exactly when the key is absent (even for n = 0) or holds fewer than n; otherwise the count is exactly count − n, with the same keys and every other count unchanged |
| `Ledger.DebitUndoesCredit` | src/entities/agents.rs:109-132 | popping what was just pushed succeeds and restores every count, and restores the map itself when the key was present |
| `Ledger.CreditUndoesDebit` | src/entities/agents.rs:109-132 | pushing back what a successful pop took restores the map exactly |
| `Agents.Holdings.constructor` | src/entities/agents.rs:27-28 | the default ledger is empty and every pair reads 0 |
| `Agents.Holdings.GetU128` | src/entities/agents.rs:70-75 | the count stored under a packed key, 0 when absent |
| `Agents.Holdings.Get` | src/entities/agents.rs:64-69 | the count of a pair, 0 when absent, equal to `get_u128` of the packed key |
| `Agents.Holdings.Insert` | src/entities/agents.rs:60-63 | overwrites the pair's count (it reads back as n, not old + n); every other pair unchanged |
| `Agents.Holdings.PushFromTxn` | src/entities/agents.rs:76-91 | the target agent's count of the transaction's company grows by its share count (insert when absent); every other pair unchanged |
| `Agents.Holdings.PopFromTxn` | src/entities/agents.rs:92-108 | `Unspendable` with the map unchanged when the pair is absent or short; otherwise the count drops by exactly the transaction's shares and nothing else changes |
| `Agents.Holdings.Push` | src/entities/agents.rs:109-116 | the pair's count becomes old + n (n when absent); every other pair unchanged |
| `Agents.Holdings.Pop` | src/entities/agents.rs:117-132 | `Unspendable` with the map unchanged exactly when the pair is absent (even for n = 0) or holds fewer than n; otherwise count − n and every other pair unchanged |
| `Agents.Agents.constructor` | src/entities/agents.rs:224-230 | a new engine has no agents, an empty ledger and an empty preference table with the given timeline capacity |
| `Agents.Agents.CanSell` | src/entities/agents.rs:327-329 | true exactly when `pop` of that quantity would succeed, or the pair was never recorded and the quantity is 0 (the one case where `can_sell` and `pop` disagree) |
| `Timelines.Added` | src/entities/agents.rs:142-159 | `add` keeps length ≤ C and `target_index` ≤ length, the new length is min(C, old + incoming), and `target_index` stays 0 while the buffer is not full |
| `Timelines.AddedFull` | src/entities/agents.rs:143-148 | full branch: length stays C, incoming event i (i < min(incoming, C)) sits in slot (i + target_index) mod C, every other slot and `target_index` are unchanged |
| `Timelines.AddedFullDropsExcess` | src/entities/agents.rs:144-146 | full branch: incoming events beyond the first C have no effect |
| `Timelines.FillEmpty` | src/entities/agents.rs:149-152 | adding exactly C events to an empty timeline yields those events in insertion order, `target_index` 0 |
| `Timelines.AddedOverflow` | src/entities/agents.rs:153-158 | partial overflow with d = incoming − (C − length): slots [0, d) hold incoming[C − length ..], then the old events, then the first C − length incoming events; `target_index` becomes d |
| `Timelines.OverflowExample` | src/entities/agents.rs:153-158 | with C = 4, adding A..F to an empty timeline gives [E, F, C, D] and `target_index` 2 |
| `Timelines.AddedKeepsNewest` | src/entities/agents.rs:149-158 | from a buffer that is not full, the buffer read from `target_index` on, wrapping, is the newest C events of old ++ incoming, in order |
| `Timelines.FullAddKeepsOrigin` | src/entities/agents.rs:143-183 | the full branch does not advance `target_index`: adding C to the full buffer [A, B] gives [C, B], whose order from `target_index` is not the newest events in order, and a recency window of one then reads B rather than the newest event C |
| `Timelines.AddedDrawsFrom` | src/entities/agents.rs:142-159 | every event in the buffer after `add` was there before or came in |
| `Timelines.RepeatedFillsWithOne` | src/entities/agents.rs:187-198 | after adding n copies of one event to an empty timeline, the timeline is non-empty and every slot holds that event, so every draw returns it |
| `Timelines.RecencyIndex` | src/entities/agents.rs:175-182 | for k < bias_size < length and `target_index` ≤ length, the index read is in bounds and lies in the last bias_size positions of the buffer read from `target_index` on |
| `Timelines.RecencyIndexInjective` | src/entities/agents.rs:175-182 | different draws read different slots, so the draw is uniform over those last bias_size positions |
| `Timelines.Timeline.constructor` | src/entities/agents.rs:136-141 | a new timeline is empty with `target_index` 0 and satisfies the invariant |
| `Timelines.Timeline.Add` | src/entities/agents.rs:142-159 | the in-place add (overwrite loop, append, or append-then-copy) leaves exactly `Added` of the old state and keeps the invariant |
| `Timelines.Timeline.GetRng` | src/entities/agents.rs:160-166 | `NoData` exactly when the buffer is empty; otherwise the event in the drawn slot k |
| `Timelines.Timeline.RecencyBias` | src/entities/agents.rs:167-183 | a window at least as large as the buffer is exactly `get_rng`; `NoData` exactly when empty; otherwise the result is the slot `RecencyIndex` computes for the draw, hence one of the last bias_size positions of the buffer read from `target_index` on, and one of the last bias_size entries when `target_index` is 0 |
| `Timelines.Preferences.constructor` | src/entities/agents.rs:39-40 | the table holds the given distinct, valid timelines, all of the table's one capacity |
| `Timelines.Preferences.Add` | src/entities/agents.rs:187-198 | `AgentNotFound(id)` with nothing changed for id ≥ number of agents; otherwise only timeline id changes, exactly as `add` of `preference` copies of (company, Buy) |
| `Timelines.Preferences.Sub` | src/entities/agents.rs:199-210 | as `Add`, with (company, Sell) events |
| `Timelines.Preferences.GetPreferredRandom` | src/entities/agents.rs:211-220 | `AgentNotFound(id)` exactly for an unknown id; otherwise that timeline's `get_rng`, whose value is in that timeline |
| `Transactions.AgentHoldings.constructor` | src/transaction.rs:55-57 | a new ledger is empty and `get` returns 0 for every company |
| `Transactions.AgentHoldings.Get` | src/transaction.rs:61-66 | the stored count, 0 for an absent company |
| `Transactions.AgentHoldings.Insert` | src/transaction.rs:58-60 | overwrites the company's count; every other company unchanged |
| `Transactions.AgentHoldings.PushFromTxn` | src/transaction.rs:67-74 | the transaction company's count becomes old + n (n when absent); every other company unchanged |
| `Transactions.AgentHoldings.PopFromTxn` | src/transaction.rs:75-81 | false with nothing changed exactly when the company is absent; otherwise true and count − n, with no check of the count (the model requires count ≥ n) |
| `Transactions.AgentHoldings.Push` | src/transaction.rs:83-89 | the company's count becomes old + n (n when absent); every other company unchanged |
| `Transactions.AgentHoldings.Pop` | src/transaction.rs:91-100 | false with nothing changed exactly when the company is absent (even for n = 0) or short; otherwise true and count − n |

## Left out

- `Timelines.Timeline.RecencyBias`: requires `k < biasSize` when the window is smaller than a non-empty buffer, so a window of 0 is excluded there; the source's `gen_range(0..0)` panics for it, and that panic is not modelled.
- The random generator: `get_rng`, `recency_bias` and `get_preferred_random` take the drawn index as an argument with the range that `gen_range` would give. Uniformity is stated only through `RecencyIndexInjective`.
- `Agents.Holdings.Push`, `Agents.Holdings.PushFromTxn`, `Transactions.AgentHoldings.Push`, `Transactions.AgentHoldings.PushFromTxn`: require that the new count fits a `u64`; release-build wrap-around is not modelled.
- `Transactions.AgentHoldings.PopFromTxn`: requires count ≥ n where the source subtracts unchecked; the panic or wrap-around on underflow is not modelled.
- `Timelines.Timeline.Add`, `Timelines.Preferences.Add`, `Timelines.Preferences.Sub`: require that the slice copy of the partial-overflow branch does not panic (incoming − (C − length) ≤ C); the panic is not modelled.
- The bit-level form of the codec: `(a << 64) | b`, `k >> 64` and `k & 0xFFFFFFFFFFFFFFFF` are stated as `a * 2^64 + b`, `k / 2^64` and `k % 2^64` over naturals.
- `TIMELINE_SIZE_LIMIT`: its value is defined outside the modelled files, so each timeline takes its capacity as a constructor argument.
- `Transaction.strike_price` and the `TodoTransactions` record: floating-point prices are not modelled. `Transaction` keeps its four integer fields, and its `new` is the datatype constructor.
- Balances (`f64` cash) and every `Agents` method that touches them, the external `Market`, or random ratios: `can_buy`, `trade`, `do_transactions`, `exchange_currency_from_transaction`, `handle_action_state`, `handle_offer_idxs`, `alert_agents`, `add_failed_offer`, `try_failed_offers`, `roll_action`, `give_random_assets`. The retry pool `try_offers` holds `f64` prices and is left out with them.
- `Agents::load` / `save` (snapshot persistence through `Balances`, whose `f64` cash is not modelled). `load` inserts each stored count with `Holdings::insert` and copies the stored timelines. `save` reads the ledger back by filtering keys through `get_first` and `get_second`, returns `NoData` for a missing timeline and passes on the errors of `Balances::get`.
- The random bootstrap helpers `set_random_preferences_for_all_companies`, `give_random_preferences` and `introduce_new_rand_agents`: RNG-driven loops that reduce to repeated `Timeline::add`, which is modelled.
- `src/main.rs` (the tick driver: file loading, interrupt flag, RNG seeding, logging, floating-point spend function) and `src/agent.rs` (random constructors that refer to a type that no longer exists) are not part of this model.
- Logging inside `Transaction::new` is not modelled.
