/** Records of the ledger: transactions, blocks, and the outcomes of its operations. */
module Types {

  /** An account address: an opaque string produced by a wallet. */
  type Address = string

  /** The sender that marks a mining-reward (coinbase) transaction. */
  const Coinbase: Address := "0"

  /** The reward the mine route pays to the miner. */
  const MiningReward: int := 1000

  /** Proof and previous-hash sentinel of the genesis block. */
  const GenesisProof: int := 100
  const GenesisPreviousHash: string := "1"

  /** A `{sender, recipient, amount}` record of the pending pool or of a block. */
  datatype Transaction = Transaction(sender: Address, recipient: Address, amount: int)

  /** A block record; `timestamp` is the float returned by the wall clock. */
  datatype Block = Block(
    index: int,
    timestamp: real,
    transactions: seq<Transaction>,
    proof: int,
    previousHash: string)

  /** Why an operation did not complete. */
  datatype Error =
    | KeyError(key: Address)    // `balances[sender]` on a sender with no entry
    | NotLoggedIn               // the route has no current user
    | InsufficientFunds         // the route's funds guard rejected the request
    | ChainMismatch             // a received block does not extend the tip

  datatype Option<T> = None | Some(value: T)

  datatype Result<T> = Ok(value: T) | Err(error: Error)

  /** Python truthiness of an optional string argument: `None` and `""` are false. */
  predicate Falsy(s: Option<string>)
  {
    s.None? || s.value == ""
  }
}
