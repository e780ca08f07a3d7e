/** The records, events, errors, calls and storage of the TFT bridge pallet. */
module PalletTypes {
  import opened Wrappers
  import opened ValidatorList
  import opened Ledgers

  const U64_MAX: int := 0xFFFF_FFFF_FFFF_FFFF

  type u64 = n: int | 0 <= n <= U64_MAX

  /** Byte vectors: Stellar addresses, public keys, signatures, transaction hashes. */
  type Bytes = string

  datatype StellarSignature = StellarSignature(signature: Bytes, stellarPubKey: Bytes)

  datatype MintTransaction = MintTransaction(amount: u64, target: AccountId, block: nat, votes: nat)

  datatype BurnTransaction = BurnTransaction(
    block: nat, amount: u64, target: Bytes, signatures: seq<StellarSignature>, sequenceNumber: u64)

  datatype RefundTransaction = RefundTransaction(
    block: nat, amount: u64, target: Bytes, txHash: Bytes,
    signatures: seq<StellarSignature>, sequenceNumber: u64)

  datatype Event =
    | MintTransactionProposed(txId: Bytes, recipient: AccountId, amount: u64)
    | MintTransactionVoted(txId: Bytes)
    | MintCompleted(mint: MintTransaction)
    | BurnTransactionCreated(id: nat, source: AccountId, target: Bytes, amount: u64)
    | BurnTransactionSignatureAdded(id: nat, sig: StellarSignature)
    | BurnTransactionReady(id: nat)
    | BurnTransactionProcessed(burn: BurnTransaction)
    | BurnTransactionExpired(id: nat, target: Bytes, amount: u64)
    | RefundTransactionCreated(hash: Bytes, target: Bytes, amount: u64)
    | RefundTransactionSignatureAdded(hash: Bytes, sig: StellarSignature)
    | RefundTransactionReady(hash: Bytes)
    | RefundTransactionProcessed(refund: RefundTransaction)
    | RefundTransactionExpired(hash: Bytes, target: Bytes, amount: u64)

  datatype Error =
    | BadOrigin
    | ValidatorExists
    | ValidatorNotExists
    | MintTransactionAlreadyExecuted
    | BurnTransactionNotExists
    | BurnSignatureExists
    | EnoughBurnSignaturesPresent
    | RefundSignatureExists
    | BurnTransactionAlreadyExecuted
    | RefundTransactionNotExists
    | RefundTransactionAlreadyExecuted
    | EnoughRefundSignaturesPresent
    | NotEnoughBalanceToSwap
    | AmountIsLessThanWithdrawFee
    | AmountIsLessThanDepositFee
    | WrongParametersProvided
    | InvalidStellarPublicKey
    | Currency(cause: LedgerError)

  datatype Origin = Root | Signed(who: AccountId)

  datatype Call =
    | AddBridgeValidator(account: AccountId)
    | RemoveBridgeValidator(account: AccountId)
    | SetFeeAccount(account: AccountId)
    | SetWithdrawFee(fee: u64)
    | SetDepositFee(fee: u64)
    | SwapToStellar(stellarTarget: Bytes, value: nat)
    | ProposeOrVoteMint(mintId: Bytes, recipient: AccountId, amount: u64)
    | ProposeBurnOrAddSig(burnId: nat, target: Bytes, amount: u64, sig: StellarSignature, sequenceNumber: u64)
    | SetBurnExecuted(burnId: nat)
    | CreateRefundOrAddSig(hash: Bytes, target: Bytes, amount: u64, sig: StellarSignature, sequenceNumber: u64)
    | SetRefundExecuted(hash: Bytes)

  /** The runtime's choices; `validKey` stands for the Stellar address decoder. */
  datatype Config = Config(
    retryInterval: nat,
    existentialDeposit: nat,
    restricted: Origin -> bool,
    validKey: Bytes -> bool)

  /** The storage of the pallet, the balances it acts on, the events so far and the current block. */
  datatype State = State(
    validators: seq<AccountId>,
    feeAccount: Option<AccountId>,
    mints: map<Bytes, MintTransaction>,
    executedMints: map<Bytes, MintTransaction>,
    burns: map<nat, BurnTransaction>,
    executedBurns: map<nat, BurnTransaction>,
    refunds: map<Bytes, RefundTransaction>,
    executedRefunds: map<Bytes, RefundTransaction>,
    burnId: nat,
    withdrawFee: u64,
    depositFee: u64,
    ledger: Ledger,
    events: seq<Event>,
    block: nat)

  /**
   One transition of the chain: an extrinsic, the end of a block (with the order in which
   the two storage maps happen to be iterated), or another pallet moving or freezing funds.
   */
  datatype Step =
    | Extrinsic(origin: Origin, call: Call)
    | Finalize(burnOrder: seq<nat>, refundOrder: seq<Bytes>)
    | Transfer(sender: AccountId, receiver: AccountId, sum: nat)
    | Freeze(owner: AccountId, locked: nat)
}
