/** The packed-key holdings ledger and the share check of `Agents` from
    `src/entities/agents.rs`. */
module Agents {
  import opened Codec
  import opened Errors
  import opened Ledger
  import opened Transactions
  import opened Timelines

  /** `Holdings`: share counts of every (agent, company) pair, keyed by
      `Combine(agent, company)`. */
  class Holdings {
    var shares: map<U128, U64>

    /** `Holdings::default`: nobody holds anything. */
    constructor ()
      ensures shares == map[]
      ensures forall a: U64, c: U64 :: Get(a, c) == 0
    {
      shares := map[];
    }

    /** `get_u128`: the count stored under a packed key, zero when absent. */
    function GetU128(id: U128): (n: U64)
      reads this
      ensures id !in shares ==> n == 0
      ensures id in shares ==> n == shares[id]
    {
      Count(shares, id)
    }

    /** `get`: the count of one (agent, company) pair, zero when absent; the
        same as looking up its packed key. */
    function Get(agentId: U64, companyId: U64): (n: U64)
      reads this
      ensures Combine(agentId, companyId) !in shares ==> n == 0
      ensures Combine(agentId, companyId) in shares ==> n == shares[Combine(agentId, companyId)]
      ensures n == GetU128(Combine(agentId, companyId))
    {
      Count(shares, Combine(agentId, companyId))
    }

    /** `insert`: overwrites the pair's count; no other pair changes. */
    method Insert(agentId: U64, companyId: U64, numberOfShares: U64)
      modifies this
      ensures shares == old(shares)[Combine(agentId, companyId) := numberOfShares]
      ensures Get(agentId, companyId) == numberOfShares
      ensures forall a: U64, c: U64 :: (a, c) != (agentId, companyId) ==> Get(a, c) == old(Get(a, c))
    {
      shares := shares[Combine(agentId, companyId) := numberOfShares];
    }

    /** `push_from_txn`: credits the transaction's shares of its company to
        `targetAgentId`; no other pair changes. */
    method PushFromTxn(targetAgentId: U64, transaction: Transaction)
      requires Get(targetAgentId, transaction.companyId) + transaction.numberOfShares < TWO_64
      modifies this
      ensures shares == Credit(old(shares), Combine(targetAgentId, transaction.companyId), transaction.numberOfShares)
      ensures Get(targetAgentId, transaction.companyId)
           == old(Get(targetAgentId, transaction.companyId)) + transaction.numberOfShares
      ensures forall a: U64, c: U64 :: (a, c) != (targetAgentId, transaction.companyId) ==> Get(a, c) == old(Get(a, c))
    {
      var key := Combine(targetAgentId, transaction.companyId);
      if key in shares {
        shares := shares[key := shares[key] + transaction.numberOfShares];
      } else {
        shares := shares[key := transaction.numberOfShares];
      }
    }

    /** `pop_from_txn`: `Unspendable` with nothing changed when the pair is
        absent or holds fewer shares than the transaction moves; otherwise the
        count drops by exactly that many and no other pair changes. */
    method PopFromTxn(targetAgentId: U64, transaction: Transaction) returns (r: Result<()>)
      modifies this
      ensures r.Err? <==> Debit(old(shares), Combine(targetAgentId, transaction.companyId), transaction.numberOfShares).None?
      ensures r.Err? ==> r.error == Unspendable && shares == old(shares)
      ensures r.Ok? ==> shares == Debit(old(shares), Combine(targetAgentId, transaction.companyId), transaction.numberOfShares).value
      ensures r.Ok? ==>
        Get(targetAgentId, transaction.companyId) == old(Get(targetAgentId, transaction.companyId)) - transaction.numberOfShares
      ensures forall a: U64, c: U64 :: (a, c) != (targetAgentId, transaction.companyId) ==> Get(a, c) == old(Get(a, c))
    {
      var key := Combine(targetAgentId, transaction.companyId);
      if key !in shares {
        return Err(Unspendable);
      }
      if shares[key] < transaction.numberOfShares {
        return Err(Unspendable);
      }
      shares := shares[key := shares[key] - transaction.numberOfShares];
      return Ok(());
    }

    /** `push`: insert-or-add for one pair; no other pair changes. */
    method Push(agentId: U64, companyId: U64, numberOfShares: U64)
      requires Get(agentId, companyId) + numberOfShares < TWO_64
      modifies this
      ensures shares == Credit(old(shares), Combine(agentId, companyId), numberOfShares)
      ensures Get(agentId, companyId) == old(Get(agentId, companyId)) + numberOfShares
      ensures forall a: U64, c: U64 :: (a, c) != (agentId, companyId) ==> Get(a, c) == old(Get(a, c))
    {
      var key := Combine(agentId, companyId);
      if key !in shares {
        shares := shares[key := numberOfShares];
        return;
      }
      shares := shares[key := shares[key] + numberOfShares];
    }

    /** `pop`: `Unspendable` with nothing changed when the pair is absent
        (even for zero shares) or holds fewer than asked; otherwise the count
        drops by exactly `numberOfShares` and no other pair changes. */
    method Pop(agentId: U64, companyId: U64, numberOfShares: U64) returns (r: Result<()>)
      modifies this
      ensures r.Err? <==> old(Combine(agentId, companyId) !in shares || Get(agentId, companyId) < numberOfShares)
      ensures r.Err? ==> r.error == Unspendable && shares == old(shares)
      ensures r.Ok? ==> shares == Debit(old(shares), Combine(agentId, companyId), numberOfShares).value
      ensures r.Ok? ==> Get(agentId, companyId) == old(Get(agentId, companyId)) - numberOfShares
      ensures forall a: U64, c: U64 :: (a, c) != (agentId, companyId) ==> Get(a, c) == old(Get(a, c))
    {
      var key := Combine(agentId, companyId);
      if key !in shares {
        return Err(Unspendable);
      }
      if shares[key] < numberOfShares {
        return Err(Unspendable);
      }
      shares := shares[key := shares[key] - numberOfShares];
      return Ok(());
    }
  }

  /** The part of `Agents` modelled here: its holdings ledger and its
      preference table (balances and the retry pool hold floating-point cash). */
  class Agents {
    var numOfAgents: U64
    var holdings: Holdings
    var preferences: Preferences

    /** `Agents::new`: no agents, empty ledger and preference table. `cap` is
        the timeline capacity `TIMELINE_SIZE_LIMIT`. */
    constructor (cap: nat)
      ensures numOfAgents == 0 && fresh(holdings) && fresh(preferences)
      ensures holdings.shares == map[] && preferences.timelines == [] && preferences.cap == cap
    {
      numOfAgents := 0;
      holdings := new Holdings();
      preferences := new Preferences(cap, []);
    }

    /** `can_sell`: the packed pair holds at least `quantity` shares. This
        agrees with `Holdings.pop` except for a pair never recorded and a
        quantity of zero, which `can_sell` accepts and `pop` refuses. */
    function CanSell(id: U128, quantity: U64): (b: bool)
      reads this, holdings
      ensures b <==> Debit(holdings.shares, id, quantity).Some? || (id !in holdings.shares && quantity == 0)
    {
      holdings.GetU128(id) >= quantity
    }
  }
}
