/** The independent check of one anchor receipt, offline or against a chain. */
module AnchorVerify {
  import opened Wrappers
  import opened AnchorChain

  type RunId = nat

  /** The routing facts a submission and its receipt share. */
  datatype Anchor = Anchor(
    runId: RunId, checkpointSequence: nat, checkpointHash: CheckpointHash, network: Network, chainId: nat,
    transactionHash: TxHash, from: Address, to: Address, inputData: Calldata)

  datatype ReceiptStatus = Submitted | Confirmed | Failed

  datatype AnchorReceipt = AnchorReceipt(
    anchor: Anchor, blockNumber: Option<nat>, blockHash: Option<BlockHash>, status: ReceiptStatus, confirmations: nat)

  /** A chain seen through an RPC endpoint, each of whose two lookups may fail. */
  datatype Reader = Reader(chainId: nat, chain: Chain, transactionFails: bool, receiptFails: bool)

  /** None means not evaluated. */
  datatype Checks = Checks(
    inputDataMatchesCheckpoint: bool, chainIdMatchesNetwork: bool, statusConfirmed: bool,
    chainTransactionFound: Option<bool>, chainInputMatches: Option<bool>, chainToMatches: Option<bool>,
    receiptStatusSuccess: Option<bool>, blockIncluded: Option<bool>)

  datatype Problem =
    | NotADigest | OtherCheckpoint | WrongInputData | WrongChainId | NotConfirmed
    | WrongReader | TransactionLookupFailed | NoSuchTransaction | CalldataDiffers | DestinationDiffers
    | NotInClaimedBlock | ReceiptLookupFailed | NoChainReceipt | RevertedOnChain

  /** Everything there is to hold of a receipt by itself: a confirmed receipt for that checkpoint, on its
      network's chain, whose calldata is the bare digest. */
  predicate Attests(r: AnchorReceipt, expected: CheckpointHash)
  {
    && expected.Sha256? && r.anchor.checkpointHash == expected && r.anchor.inputData == DigestBytes(expected.digest)
    && r.anchor.chainId == (if r.anchor.network == BaseMainnet then 8453 else 84532)
    && r.status == Confirmed
  }

  /** And of the chain it names: the transaction carries that digest to that address, in the block the
      receipt claims, and went through. */
  predicate ShownBy(r: AnchorReceipt, expected: CheckpointHash, c: Chain)
  {
    var hash := r.anchor.transactionHash;
    && expected.Sha256? && hash in c.transactions && hash in c.receipts && c.receipts[hash].status == Success
    && c.transactions[hash].input == DigestBytes(expected.digest) && c.transactions[hash].to == Some(r.anchor.to)
    && c.transactions[hash].blockNumber.Some?
    && (r.blockNumber.Some? ==> c.transactions[hash].blockNumber == r.blockNumber)
    && (r.blockHash.Some? ==> c.transactions[hash].blockHash == r.blockHash)
  }

  /** The chain has the transaction in a block, and in no other than the receipt claims. */
  predicate InClaimedBlock(r: AnchorReceipt, tx: Transaction)
  {
    && tx.blockNumber.Some?
    && (r.blockNumber.None? || tx.blockNumber == r.blockNumber)
    && (r.blockHash.None? || tx.blockHash == r.blockHash)
  }

  predicate AllOnline(checks: Checks)
  {
    && checks.chainTransactionFound == Some(true) && checks.chainInputMatches == Some(true)
    && checks.chainToMatches == Some(true) && checks.receiptStatusSuccess == Some(true)
    && checks.blockIncluded == Some(true)
  }

  predicate AllChecksTrue(c: Checks, online: bool)
  {
    && c.inputDataMatchesCheckpoint && c.chainIdMatchesNetwork && c.statusConfirmed
    && (online ==> AllOnline(c))
  }

  /** The checks that need no chain. */
  method PureChecks(r: AnchorReceipt, expected: CheckpointHash) returns (checks: Checks, problems: seq<Problem>)
    ensures checks == Checks(expected.Sha256? && r.anchor.inputData == DigestBytes(expected.digest)
                             && r.anchor.checkpointHash == expected,
                             r.anchor.chainId == if r.anchor.network == BaseMainnet then 8453 else 84532,
                             r.status == Confirmed, None, None, None, None, None)
    ensures problems == [] <==> Attests(r, expected)
  {
    problems := [];
    checks := Checks(false, false, false, None, None, None, None, None);
    var expectedInput := AnchorInputData(expected);
    if expectedInput.None? {
      problems := problems + [NotADigest];
    }
    if r.anchor.checkpointHash != expected {
      problems := problems + [OtherCheckpoint];
    }
    if expectedInput.Some? {
      if r.anchor.inputData != expectedInput.value {
        problems := problems + [WrongInputData];
      } else if r.anchor.checkpointHash == expected {
        checks := checks.(inputDataMatchesCheckpoint := true);
      }
    }
    checks := checks.(chainIdMatchesNetwork := r.anchor.chainId == ExpectedChainId(r.anchor.network));
    if !checks.chainIdMatchesNetwork {
      problems := problems + [WrongChainId];
    }
    checks := checks.(statusConfirmed := r.status == Confirmed);
    if !checks.statusConfirmed {
      problems := problems + [NotConfirmed];
    }
  }

  /** The checks against the chain, each made only once the ones before it could be made. */
  predicate ChainChecksAre(r: AnchorReceipt, expected: CheckpointHash, reader: Reader, checks: Checks)
  {
    var hash := r.anchor.transactionHash;
    var reached := reader.chainId == r.anchor.chainId && !reader.transactionFails;
    var found := reached && hash in reader.chain.transactions;
    && checks.chainTransactionFound == (if reached then Some(hash in reader.chain.transactions) else None)
    && (if found then
          var tx := reader.chain.transactions[hash];
          && checks.chainInputMatches
             == Some(tx.input == r.anchor.inputData && (expected.Sha256? ==> tx.input == DigestBytes(expected.digest)))
          && checks.chainToMatches == Some(tx.to == Some(r.anchor.to))
          && checks.blockIncluded == Some(InClaimedBlock(r, tx))
        else checks.chainInputMatches.None? && checks.chainToMatches.None? && checks.blockIncluded.None?)
    && checks.receiptStatusSuccess
       == if found && !reader.receiptFails
          then Some(hash in reader.chain.receipts && reader.chain.receipts[hash].status == Success) else None
  }

  /** What the transaction itself has to show. */
  method TransactionChecks(r: AnchorReceipt, expected: CheckpointHash, tx: Transaction, before: Checks)
    returns (checks: Checks, problems: seq<Problem>)
    ensures checks == before.(
      chainInputMatches :=
        Some(tx.input == r.anchor.inputData && (expected.Sha256? ==> tx.input == DigestBytes(expected.digest))),
      chainToMatches := Some(tx.to == Some(r.anchor.to)),
      blockIncluded := Some(InClaimedBlock(r, tx)))
    ensures problems == [] <==>
      && checks.chainInputMatches == Some(true) && checks.chainToMatches == Some(true)
      && checks.blockIncluded == Some(true)
  {
    hide InClaimedBlock;
    problems := [];
    var expectedInput := AnchorInputData(expected);
    checks := before.(chainInputMatches :=
      Some(tx.input == r.anchor.inputData && (expectedInput.None? || tx.input == expectedInput.value)));
    if checks.chainInputMatches == Some(false) {
      problems := problems + [CalldataDiffers];
    }
    checks := checks.(chainToMatches := Some(tx.to == Some(r.anchor.to)));
    if checks.chainToMatches == Some(false) {
      problems := problems + [DestinationDiffers];
    }
    checks := checks.(blockIncluded := Some(InClaimedBlock(r, tx)));
    if checks.blockIncluded == Some(false) {
      problems := problems + [NotInClaimedBlock];
    }
  }

  predicate PureAgree(before: Checks, checks: Checks)
  {
    && checks.inputDataMatchesCheckpoint == before.inputDataMatchesCheckpoint
    && checks.chainIdMatchesNetwork == before.chainIdMatchesNetwork && checks.statusConfirmed == before.statusConfirmed
  }

  predicate OnlyPure(checks: Checks)
  {
    && checks.chainTransactionFound.None? && checks.chainInputMatches.None? && checks.chainToMatches.None?
    && checks.receiptStatusSuccess.None? && checks.blockIncluded.None?
  }

  /** What the chain's receipt of the transaction has to show. */
  method ReceiptChecks(r: AnchorReceipt, reader: Reader, before: Checks)
    returns (checks: Checks, problems: seq<Problem>)
    requires before.receiptStatusSuccess.None?
    ensures checks == before.(receiptStatusSuccess :=
      if reader.receiptFails then None
      else Some(r.anchor.transactionHash in reader.chain.receipts
                && reader.chain.receipts[r.anchor.transactionHash].status == Success))
    ensures problems == [] <==> checks.receiptStatusSuccess == Some(true)
  {
    checks, problems := before, [];
    if reader.receiptFails {
      return checks, [ReceiptLookupFailed];
    }
    var chainReceipt := TransactionReceipt(reader.chain, r.anchor.transactionHash);
    checks := checks.(receiptStatusSuccess := Some(chainReceipt.Some? && chainReceipt.value.status == Success));
    if chainReceipt.None? {
      problems := [NoChainReceipt];
    } else if checks.receiptStatusSuccess == Some(false) {
      problems := [RevertedOnChain];
    }
  }

  /** The checks against the chain, on top of those made before; the first lookup that cannot be made or
      finds nothing ends them. */
  method ChainChecks(r: AnchorReceipt, expected: CheckpointHash, reader: Reader, before: Checks)
    returns (checks: Checks, problems: seq<Problem>)
    requires OnlyPure(before)
    ensures PureAgree(before, checks) && ChainChecksAre(r, expected, reader, checks)
    ensures problems == [] <==> AllOnline(checks)
  {
    hide InClaimedBlock;
    checks, problems := before, [];
    if reader.chainId != r.anchor.chainId {
      return checks, [WrongReader];
    }
    if reader.transactionFails {
      return checks, [TransactionLookupFailed];
    }
    var transaction := TransactionOf(reader.chain, r.anchor.transactionHash);
    checks := checks.(chainTransactionFound := Some(transaction.Some?));
    if transaction.None? {
      return checks, [NoSuchTransaction];
    }
    checks, problems := TransactionChecks(r, expected, transaction.value, checks);
    var more;
    checks, more := ReceiptChecks(r, reader, checks);
    problems := problems + more;
  }

  /** All chain checks are true exactly when the chain shows an attesting receipt's transaction. */
  lemma ChainChecksShow(r: AnchorReceipt, expected: CheckpointHash, reader: Reader, checks: Checks)
    requires ChainChecksAre(r, expected, reader, checks) && Attests(r, expected)
    ensures AllOnline(checks)
       <==> && reader.chainId == r.anchor.chainId && !reader.transactionFails && !reader.receiptFails
            && ShownBy(r, expected, reader.chain)
  {
  }

  /** ok means every check that could be made came out true, and that in turn means the receipt
      commits to the expected checkpoint and the chain shows it confirmed where it says. */
  method VerifyAnchorReceipt(r: AnchorReceipt, expected: CheckpointHash, reader: Option<Reader>)
    returns (ok: bool, checks: Checks, problems: seq<Problem>)
    ensures ok == (problems == [])
    ensures ok == AllChecksTrue(checks, reader.Some?)
    ensures checks.inputDataMatchesCheckpoint
         == (expected.Sha256? && r.anchor.inputData == DigestBytes(expected.digest)
             && r.anchor.checkpointHash == expected)
    ensures checks.chainIdMatchesNetwork
         == (r.anchor.chainId == if r.anchor.network == BaseMainnet then 8453 else 84532)
    ensures checks.statusConfirmed == (r.status == Confirmed)
    ensures reader.None? ==> ok == Attests(r, expected)
    ensures reader.Some? ==>
      ok == (Attests(r, expected) && reader.value.chainId == r.anchor.chainId
             && !reader.value.transactionFails && !reader.value.receiptFails
             && ShownBy(r, expected, reader.value.chain))
    ensures reader.Some? ==> ChainChecksAre(r, expected, reader.value, checks)
  {
    checks, problems := PureChecks(r, expected);
    hide ShownBy, ChainChecksAre;
    if reader.Some? {
      var more;
      checks, more := ChainChecks(r, expected, reader.value, checks);
      problems := problems + more;
      if Attests(r, expected) {
        ChainChecksShow(r, expected, reader.value, checks);
      }
    }
    ok := problems == [];
  }
}
