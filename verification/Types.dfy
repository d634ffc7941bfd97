/** Values shared by several modules: identifiers, transactions, the block headers kept in the blocks
    table, and integer division as the code does it. */
module Types {

  /** A block id (also a previous or next hash). The empty string is the empty hash. */
  type BlockId = string

  type TxId = string

  type Address = string

  datatype Option<+T> = None | Some(value: T)

  /** minimal says that the amount is encoded without leading zero bytes, as the table encodes it. */
  datatype TxInput = TxInput(
    fromAddr: Address,
    refTxid: TxId,
    refOffset: nat,
    amount: nat,
    minimal: bool,
    frozenHeight: int)

  datatype TxOutput = TxOutput(toAddr: Address, amount: nat, frozenHeight: int)

  datatype Tx = Tx(txid: TxId, coinbase: bool, autogen: bool, inputs: seq<TxInput>, outputs: seq<TxOutput>)

  /** A stored block header. The transactions of a block are kept in the confirmed table and
      found through txids, the first TxCount cells of the block's Merkle tree. */
  datatype Header = Header(
    id: BlockId,
    preHash: BlockId,
    nextHash: BlockId,
    height: nat,
    inTrunk: bool,
    proposer: Address,
    txids: seq<TxId>)

  /** A block with its transactions, as it arrives and as queryBlock returns it. */
  datatype Block = Block(id: BlockId, preHash: BlockId, height: nat, proposer: Address, txs: seq<Tx>)

  function TxIds(txs: seq<Tx>): (ids: seq<TxId>)
    ensures |ids| == |txs|
  {
    seq(|txs|, i requires 0 <= i < |txs| => txs[i].txid)
  }

  /** Integer division that rounds toward zero. */
  function Quo(a: int, b: int): int
    requires b > 0
  {
    if a >= 0 then a / b else -((-a) / b)
  }
}
