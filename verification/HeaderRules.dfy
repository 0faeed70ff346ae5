/** The header rules a block is validated by, and the header a payload is started from. */
module HeaderRules {
  import opened Prelude
  import opened Types
  import opened FeeMarket

  const DEFAULT_OMMERS_HASH: Hash := 0x1dcc4de8_dec75d7a_ab85b567_b6ccd41a_d312451b_948a7413_f0a142fd_40d49347
  const GAS_LIMIT_BOUND_DIVISOR: nat := 1024
  const MIN_GAS_LIMIT: nat := 5000
  const DEFAULT_BUILDER_GAS_CEIL: nat := 30_000_000

  datatype ChainConfig = ChainConfig(shanghaiTime: Option<nat>, cancunTime: Option<nat>, eip155Block: Option<nat>)

  predicate Activated(since: Option<nat>, at: nat) {
    since.Some? && since.value <= at
  }

  datatype InvalidBlockHeaderError =
    | GasUsedGreaterThanGasLimit
    | BaseFeePerGasIncorrect
    | TimestampNotGreaterThanParent
    | BlockNumberNotOneGreater
    | ExtraDataTooLong
    | DifficultyNotZero
    | NonceNotZero
    | OmmersHashNotDefault
    | ParentHashIncorrect
    | ExcessBlobGasNotPresent
    | BlobGasUsedNotPresent
    | ExcessBlobGasIncorrect
    | ParentBeaconBlockRootNotPresent
    | ExcessBlobGasPresent
    | BlobGasUsedPresent
    | ArithmeticOverflow

  /** The base fee a header stands for when it carries none. */
  function EffectiveBaseFee(h: BlockHeader): nat {
    UnwrapOr(h.baseFeePerGas, INITIAL_BASE_FEE)
  }

  // ---------------------------------------------------------------- validation

  function ValidateBlockHeader(hashOf: HeaderHash, header: BlockHeader,
                               parent: BlockHeader): (e: Option<InvalidBlockHeaderError>)
    ensures e.None? ==>
              && header.number == parent.number + 1
              && header.parentHash == hashOf(parent)
              && header.difficulty == 0
              && header.gasUsed <= header.gasLimit
              && CheckGasLimit(header.gasLimit, parent.gasLimit)
  {
    var expected := CalculateBaseFeePerGas(header.gasLimit, parent.gasLimit, parent.gasUsed, EffectiveBaseFee(parent));
    if header.gasUsed > header.gasLimit then Some(GasUsedGreaterThanGasLimit)
    else if expected == Err(FeeOverflow) then Some(ArithmeticOverflow)
    else if expected.Err? then Some(BaseFeePerGasIncorrect)
    else if expected.value != EffectiveBaseFee(header) then Some(BaseFeePerGasIncorrect)
    else if header.timestamp <= parent.timestamp then Some(TimestampNotGreaterThanParent)
    else if header.number != parent.number + 1 then Some(BlockNumberNotOneGreater)
    else if |header.extraData| > 32 then Some(ExtraDataTooLong)
    else if header.difficulty != 0 then Some(DifficultyNotZero)
    else if header.nonce != 0 then Some(NonceNotZero)
    else if header.ommersHash != DEFAULT_OMMERS_HASH then Some(OmmersHashNotDefault)
    else if header.parentHash != hashOf(parent) then Some(ParentHashIncorrect)
    else None
  }

  /** The validator's excess blob gas, written over the parent header. */
  function CalcExcessBlobGas(parent: BlockHeader): nat {
    var parentBlobGas := UnwrapOr(parent.excessBlobGas, 0) + UnwrapOr(parent.blobGasUsed, 0);
    if parentBlobGas < 393216 then 0 else parentBlobGas - 393216
  }

  function ValidateCancunHeaderFields(header: BlockHeader, parent: BlockHeader): Option<InvalidBlockHeaderError> {
    if header.excessBlobGas.None? then Some(ExcessBlobGasNotPresent)
    else if header.blobGasUsed.None? then Some(BlobGasUsedNotPresent)
    else if header.excessBlobGas.value != CalcExcessBlobGas(parent) then Some(ExcessBlobGasIncorrect)
    else if header.parentBeaconBlockRoot.None? then Some(ParentBeaconBlockRootNotPresent)
    else None
  }

  function ValidateNoCancunHeaderFields(header: BlockHeader): Option<InvalidBlockHeaderError> {
    if header.excessBlobGas.Some? then Some(ExcessBlobGasPresent)
    else if header.blobGasUsed.Some? then Some(BlobGasUsedPresent)
    else None
  }

  /** The header part of block validation, with the fork chosen by the block's timestamp. */
  function ValidateHeader(hashOf: HeaderHash, config: ChainConfig, header: BlockHeader, parent: BlockHeader)
    : Option<InvalidBlockHeaderError>
  {
    var general := ValidateBlockHeader(hashOf, header, parent);
    if general.Some? then general
    else if Activated(config.cancunTime, header.timestamp) then ValidateCancunHeaderFields(header, parent)
    else ValidateNoCancunHeaderFields(header)
  }

  /** A sequence of headers in which each one validates against its predecessor. */
  ghost predicate ValidatedChain(hashOf: HeaderHash, chain: seq<BlockHeader>) {
    forall i :: 0 < i < |chain| ==> ValidateBlockHeader(hashOf, chain[i], chain[i - 1]).None?
  }

  /** Once at or above 7 the base fee of a validated chain stays there, whatever its blocks use. */
  lemma {:induction false} BaseFeeFloor(hashOf: HeaderHash, chain: seq<BlockHeader>, i: nat, j: nat)
    requires ValidatedChain(hashOf, chain) && i <= j < |chain|
    requires EffectiveBaseFee(chain[i]) >= 7
    ensures EffectiveBaseFee(chain[j]) >= 7
    decreases j - i
  {
    if i < j {
      BaseFeeFloor(hashOf, chain, i, j - 1);
      var parent, header := chain[j - 1], chain[j];
      assert ValidateBlockHeader(hashOf, header, parent).None?;
      BaseFeeFallsByAtMostOneEighth(header.gasLimit, parent.gasLimit, parent.gasUsed, EffectiveBaseFee(parent));
    }
  }

  /** No higher floor holds: an empty parent takes 8 down to 7. */
  lemma BaseFeeFloorIsTight(gasLimit: nat)
    requires gasLimit >= 5000 && LimitFits(gasLimit) && FeeFits(gasLimit, 0, 8)
    ensures CalculateBaseFeePerGas(gasLimit, gasLimit, 0, 8) == Ok(7)
  {
    var target := gasLimit / 2;
    MulDiv(8, target);
  }

  // ---------------------------------------------------------------- payload headers

  datatype BuildPayloadArgs = BuildPayloadArgs(
    parent: Hash, timestamp: nat, feeRecipient: Address, random: Hash, beaconRoot: Option<Hash>)

  /** Trie roots of the empty lists and of the payload's withdrawals, computed elsewhere. */
  datatype Roots = Roots(transactions: Hash, receipts: Hash, withdrawals: Hash)

  /** The subtraction needs a parent limit of at least one divisor. */
  function CalcGasLimit(parentGasLimit: nat, desired: nat): nat
    requires parentGasLimit >= GAS_LIMIT_BOUND_DIVISOR
  {
    var delta := parentGasLimit / GAS_LIMIT_BOUND_DIVISOR - 1;
    var desiredLimit := Min(desired, MIN_GAS_LIMIT);
    if parentGasLimit < desiredLimit then Min(parentGasLimit + delta, desiredLimit)
    else if parentGasLimit > desiredLimit then Max(parentGasLimit - delta, desiredLimit)
    else parentGasLimit
  }

  /** The builder's excess blob gas, written over the two amounts. */
  function BuilderExcessBlobGas(parentExcess: nat, parentUsed: nat): nat {
    var excess := parentExcess + parentUsed;
    if excess < TARGET_BLOB_GAS_PER_BLOCK then 0 else excess - TARGET_BLOB_GAS_PER_BLOCK
  }

  /** The base fee a payload on this parent starts with. */
  function StartedFee(parent: BlockHeader): Result<nat, BaseFeeError>
    requires parent.gasLimit >= GAS_LIMIT_BOUND_DIVISOR
  {
    var gasLimit := CalcGasLimit(parent.gasLimit, DEFAULT_BUILDER_GAS_CEIL);
    CalculateBaseFeePerGas(gasLimit, parent.gasLimit, parent.gasUsed, UnwrapOr(parent.baseFeePerGas, 0))
  }

  /** A payload can be started on this parent: its base fee does not overflow. */
  predicate CanStart(parent: BlockHeader) {
    parent.gasLimit >= GAS_LIMIT_BOUND_DIVISOR && StartedFee(parent) != Err(FeeOverflow)
  }

  function CreatePayload(config: ChainConfig, args: BuildPayloadArgs, roots: Roots,
                         parent: BlockHeader): Result<BlockHeader, BaseFeeError>
    requires parent.gasLimit >= GAS_LIMIT_BOUND_DIVISOR
  {
    if !CanStart(parent) then Err(FeeOverflow) else Ok(StartedHeader(config, args, roots, parent))
  }

  function StartedHeader(config: ChainConfig, args: BuildPayloadArgs, roots: Roots, parent: BlockHeader): BlockHeader
    requires CanStart(parent)
  {
    var gasLimit := CalcGasLimit(parent.gasLimit, DEFAULT_BUILDER_GAS_CEIL);
    var cancun := Activated(config.cancunTime, args.timestamp);
    BlockHeader(
      args.parent,
      DEFAULT_OMMERS_HASH,
      args.feeRecipient,
      parent.stateRoot,
      roots.transactions,
      roots.receipts,
      0,
      0,
      parent.number + 1,
      gasLimit,
      0,
      args.timestamp,
      [],
      args.random,
      0,
      if StartedFee(parent).Ok? then Some(StartedFee(parent).value) else None,
      if Activated(config.shanghaiTime, args.timestamp) then Some(roots.withdrawals) else None,
      if cancun then Some(0) else None,
      if cancun then Some(BuilderExcessBlobGas(UnwrapOr(parent.excessBlobGas, 0), UnwrapOr(parent.blobGasUsed, 0)))
      else None,
      args.beaconRoot)
  }

  /** The builder's limit satisfies the validator's bounds exactly from 4997 gas upwards. */
  lemma BuilderLimitPasses(parentGasLimit: nat)
    requires parentGasLimit >= GAS_LIMIT_BOUND_DIVISOR
    ensures CheckGasLimit(CalcGasLimit(parentGasLimit, DEFAULT_BUILDER_GAS_CEIL), parentGasLimit) <==>
            parentGasLimit >= 4997
  {
  }

  /** Without a parent base fee the builder starts from 0 where the validator starts from one gwei. */
  lemma MissingBaseFeeIsFarOff(gasLimit: nat, parentGasLimit: nat, used: nat)
    ensures var built := CalculateBaseFeePerGas(gasLimit, parentGasLimit, used, 0);
            var expected := CalculateBaseFeePerGas(gasLimit, parentGasLimit, used, INITIAL_BASE_FEE);
            (built.Ok? ==> built.value <= 1) && (expected.Ok? ==> expected.value >= 875_000_000)
  {
    if CalculateBaseFeePerGas(gasLimit, parentGasLimit, used, INITIAL_BASE_FEE).Ok? {
      BaseFeeFallsByAtMostOneEighth(gasLimit, parentGasLimit, used, INITIAL_BASE_FEE);
    }
    var target := parentGasLimit / 2;
    if used > target > 0 {
      assert 0 * (used - target) / target == 0;
    }
  }

  /**
    Exactly when a freshly created payload header passes the validator: the two gas-limit rules,
    the two base-fee defaults and the two excess-blob-gas rules agree under these conditions and
    no others.
   */
  lemma PayloadHeaderIsValid(hashOf: HeaderHash, config: ChainConfig, args: BuildPayloadArgs, roots: Roots,
                             parent: BlockHeader)
    requires CanStart(parent) && args.parent == hashOf(parent)
    ensures ValidateHeader(hashOf, config, StartedHeader(config, args, roots, parent), parent).None? <==>
            && parent.gasLimit >= 4997
            && parent.baseFeePerGas.Some?
            && args.timestamp > parent.timestamp
            && (Activated(config.cancunTime, args.timestamp) ==> args.beaconRoot.Some?)
  {
    var header := StartedHeader(config, args, roots, parent);
    BuilderLimitPasses(parent.gasLimit);
    if parent.baseFeePerGas.None? {
      MissingBaseFeeIsFarOff(header.gasLimit, parent.gasLimit, parent.gasUsed);
    }
  }
}
