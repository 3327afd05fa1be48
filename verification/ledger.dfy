/** The insert-or-add and check-then-decrement discipline that both share
    ledgers (`Holdings`, keyed by a packed pair, and `AgentHoldings`, keyed by a
    company id) apply to their `HashMap<_, u64>`. An absent key reads as zero. */
module Ledger {
  import opened Codec
  import opened Errors

  /** The share count a map records for `k`; absence means zero. */
  function Count<K>(m: map<K, U64>, k: K): U64 {
    if k in m then m[k] else 0
  }

  /** `push`: insert `n` for an absent key, otherwise add `n` to the count.
      The sum must fit a `u64`: otherwise a debug build panics and a release
      build wraps around. */
  function Credit<K>(m: map<K, U64>, k: K, n: U64): (r: map<K, U64>)
    requires Count(m, k) + n < TWO_64
    ensures r.Keys == m.Keys + {k}
    ensures r[k] == Count(m, k) + n
    ensures forall j :: j in m && j != k ==> r[j] == m[j]
  {
    if k in m then m[k := m[k] + n] else m[k := n]
  }

  /** `pop`: refused when the key is absent (even for `n == 0`) or holds fewer
      than `n`; otherwise the count drops by exactly `n`. */
  function Debit<K>(m: map<K, U64>, k: K, n: U64): (r: Option<map<K, U64>>)
    ensures r.None? <==> k !in m || m[k] < n
    ensures r.Some? ==> r.value.Keys == m.Keys && r.value[k] == m[k] - n
    ensures r.Some? ==> forall j :: j in m && j != k ==> r.value[j] == m[j]
  {
    if k !in m then None
    else if m[k] < n then None
    else Some(m[k := m[k] - n])
  }

  /** Taking back what was just credited always succeeds and restores every count. */
  lemma DebitUndoesCredit<K>(m: map<K, U64>, k: K, n: U64)
    requires Count(m, k) + n < TWO_64
    ensures Debit(Credit(m, k, n), k, n).Some?
    ensures forall j :: Count(Debit(Credit(m, k, n), k, n).value, j) == Count(m, j)
    ensures k in m ==> Debit(Credit(m, k, n), k, n).value == m
  {
  }

  /** Crediting back what a successful debit took restores the map exactly. */
  lemma CreditUndoesDebit<K>(m: map<K, U64>, k: K, n: U64)
    requires Debit(m, k, n).Some?
    ensures Credit(Debit(m, k, n).value, k, n) == m
  {
  }
}
