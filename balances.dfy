/** The balance table: how a transaction changes it, its total, and the funds guards of the route. */
module Balances {
  import opened Types

  type Table = map<Address, int>

  /** `balances.get(a, 0)`: unseen addresses hold 0. */
  function Get(bal: Table, a: Address): int
  {
    if a in bal then bal[a] else 0
  }

  /** The source can settle `tx` without a `KeyError`: a coinbase, or a sender with an entry. */
  predicate CanSettle(bal: Table, tx: Transaction)
  {
    tx.sender == Coinbase || tx.sender in bal
  }

  /** Net change `tx` makes to the balance of `a`. */
  function Delta(tx: Transaction, a: Address): int
  {
    (if a == tx.recipient then tx.amount else 0) -
    (if a == tx.sender && tx.sender != Coinbase then tx.amount else 0)
  }

  /** What a settled transaction adds to the total supply. */
  function Minted(tx: Transaction): int
  {
    if tx.sender == Coinbase then tx.amount else 0
  }

  /**
   * The balance updates of `new_transaction`: debit a non-coinbase sender, then credit the
   * recipient on top of what it holds at that point (so a self-transfer nets to zero).
   */
  function Settle(bal: Table, tx: Transaction): (r: Table)
    requires CanSettle(bal, tx)
    ensures r.Keys == bal.Keys + {tx.recipient}
    ensures forall a :: Get(r, a) == Get(bal, a) + Delta(tx, a)
  {
    var debited := if tx.sender != Coinbase then bal[tx.sender := bal[tx.sender] - tx.amount] else bal;
    debited[tx.recipient := Get(debited, tx.recipient) + tx.amount]
  }

  /** Sum of all balances. */
  ghost function Total(bal: Table): int
    decreases |bal|
  {
    if bal == map[] then 0
    else
      var a :| a in bal;
      bal[a] + Total(bal - {a})
  }

  /** `Total` may take its keys in any order. */
  lemma {:induction false} TotalPick(bal: Table, a: Address)
    requires a in bal
    ensures Total(bal) == bal[a] + Total(bal - {a})
    decreases |bal|
  {
    var b :| b in bal && Total(bal) == bal[b] + Total(bal - {b});
    if b != a {
      var rest := bal - {a} - {b};
      assert bal - {b} - {a} == rest;
      assert bal - {a} - {b} == rest;
      TotalPick(bal - {b}, a);
      TotalPick(bal - {a}, b);
    }
  }

  /** Setting one entry shifts the total by the change in that entry. */
  lemma TotalUpdate(bal: Table, a: Address, v: int)
    ensures Total(bal[a := v]) == Total(bal) - Get(bal, a) + v
  {
    var m := bal[a := v];
    TotalPick(m, a);
    if a in bal {
      assert m - {a} == bal - {a};
      TotalPick(bal, a);
    } else {
      assert m - {a} == bal;
    }
  }

  /** A coinbase raises the total by its amount; any other transaction leaves it unchanged. */
  lemma SettleConserves(bal: Table, tx: Transaction)
    requires CanSettle(bal, tx)
    ensures Total(Settle(bal, tx)) == Total(bal) + Minted(tx)
  {
    var debited := if tx.sender != Coinbase then bal[tx.sender := bal[tx.sender] - tx.amount] else bal;
    if tx.sender != Coinbase {
      TotalUpdate(bal, tx.sender, bal[tx.sender] - tx.amount);
    }
    TotalUpdate(debited, tx.recipient, Get(debited, tx.recipient) + tx.amount);
  }

  /** No address holds a negative balance. */
  ghost predicate Solvent(bal: Table)
  {
    forall a :: a in bal ==> bal[a] >= 0
  }

  /** The sender can cover the amount (a coinbase always can). */
  ghost predicate Covered(bal: Table, tx: Transaction)
  {
    tx.sender == Coinbase || Get(bal, tx.sender) >= tx.amount
  }

  /** A covered transaction of a non-negative amount keeps every balance non-negative. */
  lemma SettleKeepsSolvent(bal: Table, tx: Transaction)
    requires CanSettle(bal, tx) && Solvent(bal)
    requires tx.amount >= 0 && Covered(bal, tx)
    ensures Solvent(Settle(bal, tx))
  {
  }

  /** The route's funds guard as written: reject when `balances.get(sender, 0) < amount`. */
  predicate RouteAdmits(bal: Table, sender: Address, amount: int)
  {
    !(Get(bal, sender) < amount)
  }

  /** A negative amount passes the route's guard and drives the recipient's balance below zero. */
  lemma NegativeAmountOverdraws()
    ensures var bal := map["Alice" := 0, "Bob" := 0];
            var tx := Transaction("Alice", "Bob", -5);
            Solvent(bal) && RouteAdmits(bal, tx.sender, tx.amount) && CanSettle(bal, tx) &&
            !Solvent(Settle(bal, tx))
  {
  }

  /** A zero amount from an address with no entry passes the route's guard, yet the core raises `KeyError`. */
  lemma UnknownSenderPassesGuard()
    ensures var tx := Transaction("Carol", "Bob", 0);
            RouteAdmits(map[], tx.sender, tx.amount) && !CanSettle(map[], tx)
  {
  }

  /** The corrected guard: a non-negative amount from a sender that has an entry covering it. */
  predicate CheckedAdmits(bal: Table, sender: Address, amount: int)
  {
    0 <= amount && sender in bal && bal[sender] >= amount
  }

  /** Whatever the corrected guard admits settles without error and keeps every balance non-negative. */
  lemma CheckedGuardKeepsSolvent(bal: Table, tx: Transaction)
    requires Solvent(bal) && CheckedAdmits(bal, tx.sender, tx.amount)
    ensures CanSettle(bal, tx) && Solvent(Settle(bal, tx))
  {
  }
}
