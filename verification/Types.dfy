/** Blocks and transactions, as the rest of the modules see them. */
module Types {
  import opened Prelude

  type Byte = b: int | 0 <= b < 256

  type Bytes = seq<Byte>

  /** A fixed-size digest or address, read as a big-endian number. */
  type Hash = nat

  type Address = nat

  const ZERO_HASH: Hash := 0

  datatype BlockHeader = BlockHeader(
    parentHash: Hash,
    ommersHash: Hash,
    coinbase: Address,
    stateRoot: Hash,
    transactionsRoot: Hash,
    receiptsRoot: Hash,
    logsBloom: nat,
    difficulty: nat,
    number: nat,
    gasLimit: nat,
    gasUsed: nat,
    timestamp: nat,
    extraData: Bytes,
    prevRandao: Hash,
    nonce: nat,
    baseFeePerGas: Option<nat>,
    withdrawalsRoot: Option<Hash>,
    blobGasUsed: Option<nat>,
    excessBlobGas: Option<nat>,
    parentBeaconBlockRoot: Option<Hash>)

  /** The block hash: Keccak of the header's RLP, kept abstract. */
  type HeaderHash = BlockHeader -> Hash

  datatype TxKind = Call(to: Address) | Create

  datatype PrivilegedTxType = Deposit | Withdrawal

  datatype TxType = Legacy | EIP2930 | EIP1559 | EIP4844 | Privileged

  type AccessList = seq<(Address, seq<Hash>)>

  datatype Transaction =
    | LegacyTransaction(
        nonce: nat, gasPrice: nat, gasLimit: nat, kind: TxKind, value: nat, data: Bytes, v: nat, r: nat, s: nat)
    | EIP2930Transaction(
        chainId: nat, nonce: nat, gasPrice: nat, gasLimit: nat, kind: TxKind, value: nat, data: Bytes,
        accessList: AccessList, yParity: bool, r: nat, s: nat)
    | EIP1559Transaction(
        chainId: nat, nonce: nat, maxPriorityFeePerGas: nat, maxFeePerGas: nat, gasLimit: nat, kind: TxKind,
        value: nat, data: Bytes, accessList: AccessList, yParity: bool, r: nat, s: nat)
    | EIP4844Transaction(
        chainId: nat, nonce: nat, maxPriorityFeePerGas: nat, maxFeePerGas: nat, gasLimit: nat, recipient: Address,
        value: nat, data: Bytes, accessList: AccessList, maxFeePerBlobGas: nat, blobVersionedHashes: seq<Hash>,
        yParity: bool, r: nat, s: nat)
    | PrivilegedL2Transaction(
        chainId: nat, nonce: nat, maxPriorityFeePerGas: nat, maxFeePerGas: nat, gasLimit: nat, kind: TxKind,
        value: nat, data: Bytes, accessList: AccessList, privilegedType: PrivilegedTxType, yParity: bool, r: nat,
        s: nat)

  function TypeOf(tx: Transaction): TxType {
    match tx
    case LegacyTransaction(_, _, _, _, _, _, _, _, _) => Legacy
    case EIP2930Transaction(_, _, _, _, _, _, _, _, _, _, _) => EIP2930
    case EIP1559Transaction(_, _, _, _, _, _, _, _, _, _, _, _) => EIP1559
    case EIP4844Transaction(_, _, _, _, _, _, _, _, _, _, _, _, _, _) => EIP4844
    case PrivilegedL2Transaction(_, _, _, _, _, _, _, _, _, _, _, _, _) => Privileged
  }

  datatype Log = Log(address: Address, topics: seq<Hash>, data: Bytes)

  datatype Receipt = Receipt(txType: TxType, succeeded: bool, cumulativeGasUsed: nat, bloom: nat, logs: seq<Log>)
}
