/** `src/transaction.rs`: the settled exchange record and the per-agent
    company-to-share-count ledger used in agent snapshots. */
module Transactions {
  import opened Codec
  import opened Ledger

  /** An exchange between two agents. The field names are the source's; its
      comments call `buyerId` the party that gave away shares and `sellerId`
      the party that bought them. The `f64` strike price is not modelled. */
  datatype Transaction = Transaction(
    buyerId: U64,
    sellerId: U64,
    companyId: U64,
    numberOfShares: U64)

  /** `AgentHoldings`: one agent's share count per company. */
  class AgentHoldings {
    var shares: map<U64, U64>

    /** `new`: no company is held. */
    constructor ()
      ensures shares == map[]
      ensures forall c: U64 :: Get(c) == 0
    {
      shares := map[];
    }

    /** `get`: the stored count, zero for a company never recorded. */
    function Get(companyId: U64): (n: U64)
      reads this
      ensures companyId !in shares ==> n == 0
      ensures companyId in shares ==> n == shares[companyId]
    {
      Count(shares, companyId)
    }

    /** `insert`: overwrites the count, whatever it was. */
    method Insert(companyId: U64, numberOfShares: U64)
      modifies this
      ensures shares == old(shares)[companyId := numberOfShares]
      ensures Get(companyId) == numberOfShares
      ensures forall c :: c != companyId ==> Get(c) == old(Get(c))
    {
      shares := shares[companyId := numberOfShares];
    }

    /** `push_from_txn`: credits the transaction's shares of its company. */
    method PushFromTxn(transaction: Transaction)
      requires Get(transaction.companyId) + transaction.numberOfShares < TWO_64
      modifies this
      ensures shares == Credit(old(shares), transaction.companyId, transaction.numberOfShares)
      ensures Get(transaction.companyId) == old(Get(transaction.companyId)) + transaction.numberOfShares
      ensures forall c :: c != transaction.companyId ==> Get(c) == old(Get(c))
    {
      var c := transaction.companyId;
      if c in shares {
        shares := shares[c := shares[c] + transaction.numberOfShares];
      } else {
        shares := shares[c := transaction.numberOfShares];
      }
    }

    /** `pop_from_txn`: false, changing nothing, when the company is absent;
        otherwise subtracts WITHOUT checking the count first, so the caller must
        not ask for more than is held (a `u64` underflow panics in a debug
        build and wraps around in a release build). */
    method PopFromTxn(transaction: Transaction) returns (ok: bool)
      requires transaction.companyId in shares ==> shares[transaction.companyId] >= transaction.numberOfShares
      modifies this
      ensures ok <==> old(transaction.companyId in shares)
      ensures !ok ==> shares == old(shares)
      ensures ok ==> shares == old(shares)[transaction.companyId := old(Get(transaction.companyId)) - transaction.numberOfShares]
      ensures forall c :: c != transaction.companyId ==> Get(c) == old(Get(c))
    {
      var c := transaction.companyId;
      if c !in shares {
        return false;
      }
      shares := shares[c := shares[c] - transaction.numberOfShares];
      return true;
    }

    /** `push`: insert-or-add for one company, every other company unchanged. */
    method Push(companyId: U64, numberOfShares: U64)
      requires Get(companyId) + numberOfShares < TWO_64
      modifies this
      ensures shares == Credit(old(shares), companyId, numberOfShares)
      ensures Get(companyId) == old(Get(companyId)) + numberOfShares
      ensures forall c :: c != companyId ==> Get(c) == old(Get(c))
    {
      if companyId !in shares {
        shares := shares[companyId := numberOfShares];
        return;
      }
      shares := shares[companyId := shares[companyId] + numberOfShares];
    }

    /** `pop`: false with nothing changed when the company is absent (even for
        zero shares) or holds fewer than asked; otherwise true and the count
        drops by exactly `numberOfShares`. */
    method Pop(companyId: U64, numberOfShares: U64) returns (ok: bool)
      modifies this
      ensures ok <==> Debit(old(shares), companyId, numberOfShares).Some?
      ensures ok <==> old(companyId in shares && shares[companyId] >= numberOfShares)
      ensures !ok ==> shares == old(shares)
      ensures ok ==> shares == Debit(old(shares), companyId, numberOfShares).value
      ensures ok ==> Get(companyId) == old(Get(companyId)) - numberOfShares
      ensures forall c :: c != companyId ==> Get(c) == old(Get(c))
    {
      if companyId !in shares {
        return false;
      }
      if shares[companyId] < numberOfShares {
        return false;
      }
      shares := shares[companyId := shares[companyId] - numberOfShares];
      return true;
    }
  }
}
