/** The database the services work on: one row sequence per table, and the views the
    specifications are written on. */
module Persistence {
  import opened Wrappers
  import opened Bank
  import opened Purchases
  import opened Refunds
  import opened Disputes
  import opened Charging

  class Database {
    var wallets: map<TenantId, Wallet>
    var holds: seq<Hold>
    var ledger: seq<Entry>
    var purchases: seq<CreditPurchase>
    var refunds: seq<RefundRow>
    var disputes: seq<Dispute>
    var logs: seq<UsageLog>

    constructor ()
      ensures Helpdesk() == Office(Desk(Tables(Empty, [], []), []), []) && logs == [] && Valid()
    {
      wallets, holds, ledger := map[], [], [];
      purchases, refunds, disputes, logs := [], [], [], [];
    }

    function Books(): Bank
      reads this
    {
      Bank(wallets, holds, ledger)
    }

    function Sales(): Tables
      reads this
    {
      Tables(Books(), purchases, [])
    }

    function Helpdesk(): Office
      reads this
    {
      Office(Desk(Sales(), refunds), disputes)
    }

    /** Foreign keys: a reservation belongs to an existing wallet. */
    ghost predicate Valid()
      reads this
    {
      WellFormed(Books())
    }
  }
}
