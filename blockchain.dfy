/** The `BlockChain` class of blockchain.py: the ledger engine that owns the
    chain and the pending pool and updates them in place. Each mutating method
    is proved against the pure functions of LedgerSpec. */
module Engine {
  import opened LedgerTypes
  import opened Hashing
  import LedgerSpec

  class BlockChain {
    /** `self.chain` */
    var chain: seq<Block>
    /** `self.current_transactions` */
    var currentTransactions: seq<Transaction>

    ghost function State(): LedgerSpec.LedgerState
      reads this
    {
      LedgerSpec.LedgerState(chain, currentTransactions)
    }

    /** Holds after construction and is kept by every operation: the chain is
        non-empty and each block's index is its 1-based position. */
    ghost predicate Valid()
      reads this
    {
      LedgerSpec.ValidState(State())
    }

    /** `__init__`: start empty, then create the genesis block with previous
        hash 1 and proof 100. The clock reading is a parameter. */
    constructor (timestamp: real)
      ensures Valid()
      ensures State() == LedgerSpec.Genesis(timestamp)
      ensures chain == [Block(1, timestamp, [], 100, Number(1))] && currentTransactions == []
    {
      chain := [];
      currentTransactions := [];
      new;
      var _ := NewBlock(Number(1), 100, timestamp);
    }

    /** `new_block`. The chain may be empty only when `previousHash` is truthy,
        since otherwise the source reads `self.chain[-1]`. */
    method NewBlock(previousHash: PrevHash, proof: int, timestamp: real) returns (block: Block)
      requires LedgerSpec.Indexed(chain)
      requires Truthy(previousHash) || chain != []
      modifies this
      ensures Valid()
      ensures State() == LedgerSpec.AddBlock(old(State()), previousHash, proof, timestamp)
      ensures block == LastBlock() && block.index == |chain| && block.transactions == old(currentTransactions)
      ensures chain == old(chain) + [block] && currentTransactions == []
    {
      block := LedgerSpec.NextBlock(chain, currentTransactions, previousHash, proof, timestamp);
      currentTransactions := [];
      chain := chain + [block];
      LedgerSpec.AddBlockAppends(old(State()), previousHash, proof, timestamp);
    }

    /** `new_transactions`: append a record to the pool and return the index of
        the block expected to hold it. */
    method NewTransactions(sender: string, recipient: string, amount: int) returns (index: int)
      requires Valid()
      modifies this
      ensures Valid()
      ensures State() == LedgerSpec.AddTransaction(old(State()), sender, recipient, amount)
      ensures chain == old(chain)
      ensures currentTransactions == old(currentTransactions) + [Transaction(sender, recipient, amount)]
      ensures index == LedgerSpec.PredictedIndex(old(State())) && index == |chain| + 1
    {
      currentTransactions := currentTransactions + [Transaction(sender, recipient, amount)];
      index := LastBlock().index + 1;
    }

    /** The `last_block` property. On a valid ledger it is the block numbered
        with the chain's length. */
    function LastBlock(): (b: Block)
      reads this
      requires chain != []
      ensures b == chain[|chain| - 1]
      ensures Valid() ==> b.index == |chain|
    {
      LedgerSpec.LastBlock(chain)
    }

    /** `proof_of_work`: count up from 0 until `valid_proof` holds. The search
        ends only if some proof is valid, which the source takes for granted;
        the result is the least valid proof. */
    method ProofOfWork(lastProof: int) returns (proof: nat)
      requires exists w: nat :: ValidProof(lastProof, w)
      ensures ValidProof(lastProof, proof)
      ensures forall q :: 0 <= q < proof ==> !ValidProof(lastProof, q)
    {
      ghost var w: nat :| ValidProof(lastProof, w);
      proof := 0;
      while !ValidProof(lastProof, proof)
        invariant proof <= w
        invariant forall q :: 0 <= q < proof ==> !ValidProof(lastProof, q)
        decreases w - proof
      {
        proof := proof + 1;
      }
    }
  }

  /** A client of the class: on a freshly constructed ledger the first
      submitted transaction is predicted to land in block 2, and it waits in
      the pool while the genesis block stays as it was. */
  method SubmitAfterGenesis(timestamp: real, sender: string, recipient: string, amount: int)
    returns (index: int, pending: seq<Transaction>, genesis: Block)
    ensures index == 2
    ensures pending == [Transaction(sender, recipient, amount)]
    ensures genesis == Block(1, timestamp, [], 100, Number(1))
  {
    var ledger := new BlockChain(timestamp);
    index := ledger.NewTransactions(sender, recipient, amount);
    pending := ledger.currentTransactions;
    genesis := ledger.LastBlock();
  }

  /** A client of the class: a transaction submitted after a block was created
      goes to the new pool only, and the committed block keeps the list it
      took. This states the source's result; since sequences here are values,
      it does not depend on how the source achieves it (rebinding the pool). */
  method CommittedBlockKeepsItsTransactions(timestamp: real, proof: int, first: Transaction, second: Transaction)
    returns (committed: seq<Transaction>, pending: seq<Transaction>)
    ensures committed == [first]
    ensures pending == [second]
  {
    var ledger := new BlockChain(timestamp);
    var _ := ledger.NewTransactions(first.sender, first.recipient, first.amount);
    var _ := ledger.NewBlock(Missing, proof, timestamp);
    var _ := ledger.NewTransactions(second.sender, second.recipient, second.amount);
    committed := ledger.chain[1].transactions;
    pending := ledger.currentTransactions;
  }
}
