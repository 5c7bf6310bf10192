/** The records the ledger stores: transactions, blocks, and the loosely typed
    `previous_hash` value that `new_block` receives. */
module LedgerTypes {

  datatype Option<+T> = None | Some(value: T)

  /** One entry of the pending pool: the dictionary built by `new_transactions`. */
  datatype Transaction = Transaction(sender: string, recipient: string, amount: int)

  /** The value passed as `previous_hash`. The genesis call passes the integer 1,
      `hash` produces strings, and a caller may pass `None`. */
  datatype PrevHash = Missing | Number(n: int) | Text(s: string)

  /** Python truthiness of a `previous_hash` argument: `None`, `0` and `""` are false. */
  predicate Truthy(h: PrevHash)
    ensures !Truthy(h) <==> h == Missing || h == Number(0) || h == Text("")
  {
    match h
    case Missing => false
    case Number(n) => n != 0
    case Text(s) => s != ""
  }

  /** The dictionary built by `new_block`. `timestamp` is the clock reading, a real here. */
  datatype Block = Block(
    index: int,
    timestamp: real,
    transactions: seq<Transaction>,
    proof: int,
    previousHash: PrevHash)
}
