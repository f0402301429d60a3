/**
 * The `Blockchain` object: chain, pending pool, balances and peers, updated in place; and the
 * two routes that decide how it is driven (mining a block, submitting a user transaction),
 * plus the inbound-block route, without the HTTP layer.
 */
module Ledger {
  import opened Types
  import opened Puzzle
  import opened Balances
  import opened Chain

  class Blockchain {
    /** `hashlib.sha256(text).hexdigest()`. */
    const sha256: string -> string
    /** `json.dumps(block, sort_keys=True)`. */
    const canonicalJson: Block -> string
    /** `urlparse(address).netloc`. */
    const netloc: string -> string

    var chain: seq<Block>
    var currentTransactions: seq<Transaction>
    var balances: Table
    var nodes: set<string>

    /** After construction the chain always has a tip. */
    ghost predicate Valid()
      reads this
    {
      chain != []
    }

    /** The chain has the shape `new_block` and `/mine` give it. */
    ghost predicate Sound()
      reads this
    {
      Chain.Sound(sha256, canonicalJson, chain)
    }

    /** `hash(block)`. */
    function Hash(b: Block): string
    {
      BlockHash(sha256, canonicalJson, b)
    }

    /** `last_block`: the tip; on a chain of 1-based indices its index is the height. */
    function LastBlock(): (b: Block)
      reads this
      requires Valid()
      ensures b in chain
      ensures Indexed(chain) ==> b.index == |chain|
    {
      chain[|chain| - 1]
    }

    /**
     * `__init__`: start from the loaded chain and balances; when the loaded chain is empty,
     * seal the genesis block (index 1, previous hash "1", proof 100, no transactions).
     */
    constructor (sha256: string -> string, canonicalJson: Block -> string, netloc: string -> string,
                 loadedChain: seq<Block>, loadedBalances: Table, now: real)
      ensures this.sha256 == sha256 && this.canonicalJson == canonicalJson && this.netloc == netloc
      ensures loadedChain == [] ==> chain == [Block(1, now, [], GenesisProof, GenesisPreviousHash)]
      ensures loadedChain != [] ==> chain == loadedChain
      ensures currentTransactions == [] && balances == loadedBalances && nodes == {}
      ensures Valid()
      ensures loadedChain == [] ==> Sound()
    {
      this.sha256 := sha256;
      this.canonicalJson := canonicalJson;
      this.netloc := netloc;
      chain := loadedChain;
      currentTransactions := [];
      balances := loadedBalances;
      nodes := {};
      new;
      if chain == [] {
        var _ := NewBlock(GenesisProof, Some(GenesisPreviousHash), now);
      }
    }

    /** `register_node`: add the peer's network location; adding a known peer changes nothing. */
    method RegisterNode(address: string)
      modifies this
      ensures nodes == old(nodes) + {netloc(address)}
      ensures netloc(address) in old(nodes) ==> nodes == old(nodes)
      ensures chain == old(chain) && currentTransactions == old(currentTransactions)
      ensures balances == old(balances)
    {
      nodes := nodes + {netloc(address)};
    }

    /**
     * `new_block`: seal the whole pending pool into a block at index `len(chain) + 1`, linked to
     * `previousHash`, or to the tip's hash when `previousHash` is falsy, and empty the pool.
     */
    method NewBlock(proof: int, previousHash: Option<string>, timestamp: real) returns (block: Block)
      requires chain != [] || !Falsy(previousHash)
      modifies this
      ensures chain == old(chain) + [block]
      ensures block.index == |old(chain)| + 1 && block.timestamp == timestamp && block.proof == proof
      ensures block.transactions == old(currentTransactions)
      ensures Falsy(previousHash) ==> block.previousHash == Hash(old(chain)[|old(chain)| - 1])
      ensures !Falsy(previousHash) ==> block.previousHash == previousHash.value
      ensures currentTransactions == [] && balances == old(balances) && nodes == old(nodes)
      ensures old(Indexed(chain)) ==> Indexed(chain)
      ensures old(chain) != [] && Falsy(previousHash) ==>
                (old(Linked(sha256, canonicalJson, chain)) <==> Linked(sha256, canonicalJson, chain))
      ensures (old(Sound()) && old(chain) != [] && Falsy(previousHash) &&
               ValidProof(sha256, old(LastBlock()).proof, proof)) ==> Sound()
    {
      var prev := if Falsy(previousHash) then Hash(chain[|chain| - 1]) else previousHash.value;
      block := Block(|chain| + 1, timestamp, currentTransactions, proof, prev);
      IndexedSnoc(chain, block);
      if chain != [] {
        LinkedSnoc(sha256, canonicalJson, chain, block);
        ProofsChainedSnoc(sha256, chain, block);
      }
      currentTransactions := [];
      chain := chain + [block];
    }

    /**
     * `new_transaction`: append `{sender, recipient, amount}` to the pool, then debit a
     * non-coinbase sender and credit the recipient. A non-coinbase sender with no balance entry
     * raises `KeyError` after the append, with the balances untouched. On success the result is
     * the index the next sealed block will carry.
     */
    method NewTransaction(sender: Address, recipient: Address, amount: int) returns (r: Result<int>)
      requires Valid()
      modifies this
      ensures currentTransactions == old(currentTransactions) + [Transaction(sender, recipient, amount)]
      ensures chain == old(chain) && nodes == old(nodes)
      ensures !CanSettle(old(balances), Transaction(sender, recipient, amount)) ==>
                r == Err(KeyError(sender)) && balances == old(balances)
      ensures CanSettle(old(balances), Transaction(sender, recipient, amount)) ==>
                r == Ok(LastBlock().index + 1) &&
                balances == Settle(old(balances), Transaction(sender, recipient, amount))
      ensures r.Ok? && Indexed(chain) ==> r.value == |chain| + 1
      ensures r.Ok? ==> Total(balances) == Total(old(balances)) + Minted(Transaction(sender, recipient, amount))
      ensures old(Solvent(balances)) && amount >= 0 && Covered(old(balances), Transaction(sender, recipient, amount))
              ==> Solvent(balances)
    {
      var tx := Transaction(sender, recipient, amount);
      currentTransactions := currentTransactions + [tx];
      if !CanSettle(balances, tx) {
        return Err(KeyError(sender));
      }
      SettleConserves(balances, tx);
      if Solvent(balances) && amount >= 0 && Covered(balances, tx) {
        SettleKeepsSolvent(balances, tx);
      }
      balances := Settle(balances, tx);
      r := Ok(LastBlock().index + 1);
    }

    /** `proof_of_work`: scan 0, 1, 2, ... for the first proof `valid_proof` accepts. */
    method ProofOfWork(lastProof: int) returns (proof: int)
      requires exists p :: 0 <= p && ValidProof(sha256, lastProof, p)
      ensures IsMinimalProof(sha256, lastProof, proof)
    {
      ghost var w :| 0 <= w && ValidProof(sha256, lastProof, w);
      proof := 0;
      while !ValidProof(sha256, lastProof, proof)
        invariant 0 <= proof <= w
        invariant forall q :: 0 <= q < proof ==> !ValidProof(sha256, lastProof, q)
        decreases w - proof
      {
        proof := proof + 1;
      }
    }
  }

  /**
   * The `/mine` route: find the proof for the tip, pay the miner the coinbase reward, then seal
   * the pool. The reward lands in the sealed block, which extends the tip.
   */
  method Mine(bc: Blockchain, minerAddress: Address, now: real) returns (block: Block)
    requires bc.Valid()
    requires exists p :: 0 <= p && ValidProof(bc.sha256, bc.LastBlock().proof, p)
    modifies bc
    ensures bc.chain == old(bc.chain) + [block]
    ensures block.index == |old(bc.chain)| + 1 && block.timestamp == now
    ensures block.transactions == old(bc.currentTransactions) + [Transaction(Coinbase, minerAddress, MiningReward)]
    ensures IsMinimalProof(bc.sha256, old(bc.LastBlock()).proof, block.proof)
    ensures block.previousHash == bc.Hash(old(bc.LastBlock()))
    ensures bc.currentTransactions == [] && bc.nodes == old(bc.nodes)
    ensures bc.balances == Settle(old(bc.balances), Transaction(Coinbase, minerAddress, MiningReward))
    ensures Total(bc.balances) == Total(old(bc.balances)) + MiningReward
    ensures old(Solvent(bc.balances)) ==> Solvent(bc.balances)
    ensures old(bc.Sound()) ==> bc.Sound()
  {
    ghost var tip := bc.LastBlock();
    ghost var reward := Transaction(Coinbase, minerAddress, MiningReward);
    var lastProof := bc.LastBlock().proof;
    var proof := bc.ProofOfWork(lastProof);
    var _ := bc.NewTransaction(Coinbase, minerAddress, MiningReward);
    assert bc.chain == old(bc.chain) && bc.LastBlock() == tip;
    assert bc.balances == Settle(old(bc.balances), reward);
    block := bc.NewBlock(proof, None, now);
  }

  /**
   * The `/transactions/new` route as written: reject when nobody is logged in or when
   * `balances.get(sender, 0) < amount`, otherwise hand over to `new_transaction`.
   */
  method SubmitTransaction(bc: Blockchain, sender: Option<Address>, recipient: Address, amount: int)
    returns (r: Result<int>)
    requires bc.Valid()
    modifies bc
    ensures Falsy(sender) ==> r == Err(NotLoggedIn)
    ensures !Falsy(sender) && !RouteAdmits(old(bc.balances), sender.value, amount) ==> r == Err(InsufficientFunds)
    ensures r == Err(NotLoggedIn) || r == Err(InsufficientFunds) ==>
              bc.chain == old(bc.chain) && bc.currentTransactions == old(bc.currentTransactions) &&
              bc.balances == old(bc.balances) && bc.nodes == old(bc.nodes)
    ensures !Falsy(sender) && RouteAdmits(old(bc.balances), sender.value, amount) ==>
              bc.currentTransactions == old(bc.currentTransactions) + [Transaction(sender.value, recipient, amount)] &&
              bc.chain == old(bc.chain) && bc.nodes == old(bc.nodes) &&
              (if CanSettle(old(bc.balances), Transaction(sender.value, recipient, amount))
               then r == Ok(bc.LastBlock().index + 1) &&
                    bc.balances == Settle(old(bc.balances), Transaction(sender.value, recipient, amount))
               else r == Err(KeyError(sender.value)) && bc.balances == old(bc.balances))
    ensures old(Solvent(bc.balances)) && amount >= 0 ==> Solvent(bc.balances)
  {
    if Falsy(sender) {
      return Err(NotLoggedIn);
    }
    if Get(bc.balances, sender.value) < amount {
      return Err(InsufficientFunds);
    }
    r := bc.NewTransaction(sender.value, recipient, amount);
  }

  /**
   * The `/transactions/new` route with the funds guard corrected: the amount must be
   * non-negative and the sender must hold an entry covering it. Whatever it admits settles,
   * and no balance ever goes negative.
   */
  method SubmitTransactionChecked(bc: Blockchain, sender: Option<Address>, recipient: Address, amount: int)
    returns (r: Result<int>)
    requires bc.Valid()
    modifies bc
    ensures bc.chain == old(bc.chain) && bc.nodes == old(bc.nodes)
    ensures Falsy(sender) ==> r == Err(NotLoggedIn)
    ensures !Falsy(sender) && !CheckedAdmits(old(bc.balances), sender.value, amount) ==> r == Err(InsufficientFunds)
    ensures r.Err? ==> bc.currentTransactions == old(bc.currentTransactions) && bc.balances == old(bc.balances)
    ensures !Falsy(sender) && CheckedAdmits(old(bc.balances), sender.value, amount) ==>
              r == Ok(bc.LastBlock().index + 1) &&
              bc.currentTransactions == old(bc.currentTransactions) + [Transaction(sender.value, recipient, amount)] &&
              bc.balances == Settle(old(bc.balances), Transaction(sender.value, recipient, amount))
    ensures old(Solvent(bc.balances)) ==> Solvent(bc.balances)
  {
    if Falsy(sender) {
      return Err(NotLoggedIn);
    }
    if !CheckedAdmits(bc.balances, sender.value, amount) {
      return Err(InsufficientFunds);
    }
    r := bc.NewTransaction(sender.value, recipient, amount);
  }

  /** The `/block/new` route as written: append the peer's block without any check. */
  method AppendPeerBlock(bc: Blockchain, block: Block)
    modifies bc
    ensures bc.chain == old(bc.chain) + [block]
    ensures bc.currentTransactions == old(bc.currentTransactions)
    ensures bc.balances == old(bc.balances) && bc.nodes == old(bc.nodes)
  {
    bc.chain := bc.chain + [block];
  }

  /**
   * The `/block/new` route with the validation its own comment asks for: append only a block
   * that extends the tip (next index, tip's hash, valid proof); otherwise reject, unchanged.
   */
  method ReceiveBlock(bc: Blockchain, block: Block) returns (r: Result<int>)
    requires bc.Valid()
    modifies bc
    ensures Extends(bc.sha256, bc.canonicalJson, old(bc.chain), block) ==>
              r == Ok(block.index) && bc.chain == old(bc.chain) + [block]
    ensures !Extends(bc.sha256, bc.canonicalJson, old(bc.chain), block) ==>
              r == Err(ChainMismatch) && bc.chain == old(bc.chain)
    ensures bc.currentTransactions == old(bc.currentTransactions)
    ensures bc.balances == old(bc.balances) && bc.nodes == old(bc.nodes)
    ensures old(bc.Sound()) ==> bc.Sound()
  {
    if !Extends(bc.sha256, bc.canonicalJson, bc.chain, block) {
      return Err(ChainMismatch);
    }
    if bc.Sound() {
      SoundSnoc(bc.sha256, bc.canonicalJson, bc.chain, block);
    }
    bc.chain := bc.chain + [block];
    r := Ok(block.index);
  }
}
