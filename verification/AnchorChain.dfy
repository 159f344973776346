/** The in-memory chain every anchoring run is checked against, and the values that cross the chain
    boundary. Hex strings are values already in lower case; hashes are the terms that were hashed. */
module AnchorChain {
  import opened Wrappers

  datatype Network = BaseSepolia | BaseMainnet

  function ExpectedChainId(network: Network): nat
  {
    match network
    case BaseSepolia => 84532
    case BaseMainnet => 8453
  }

  /** A checkpoint hash, or a string that is not one. */
  datatype CheckpointHash = Sha256(digest: nat) | NotAHash(text: nat)

  datatype Calldata = DigestBytes(digest: nat) | OtherBytes(bytes: nat)

  /** The anchor payload is the bare digest; None where the source throws. */
  function AnchorInputData(c: CheckpointHash): Option<Calldata>
  {
    match c
    case Sha256(digest) => Some(DigestBytes(digest))
    case NotAHash(_) => None
  }

  datatype TxHash = FakeTx(nonce: nat, input: Calldata) | ForeignTx(id: nat)

  datatype BlockHash = FakeBlock(number: nat) | ForeignBlock(id: nat)

  type Address = nat

  datatype Transaction = Transaction(
    hash: TxHash, from: Address, to: Option<Address>, input: Calldata,
    blockNumber: Option<nat>, blockHash: Option<BlockHash>)

  datatype Status = Success | Reverted

  datatype Receipt = Receipt(status: Status, blockNumber: nat, blockHash: BlockHash)

  datatype Sent = Sent(transactionHash: TxHash, from: Address, to: Address, inputData: Calldata)

  datatype Chain = Chain(
    from: Address, nonce: nat, height: nat, revertNext: nat, dropNext: nat,
    pendingHashes: seq<TxHash>, transactions: map<TxHash, Transaction>, receipts: map<TxHash, Receipt>,
    sent: seq<Sent>)

  function NewChain(from: Address): Chain
  {
    Chain(from, 0, 0, 0, 0, [], map[], map[], [])
  }

  // ---------------------------------------------------------------- steps

  /** Put one pending transaction into the block at the current height. */
  function Include(c: Chain, hash: TxHash): Chain
  {
    if hash !in c.transactions then c
    else
      var tx := c.transactions[hash].(blockNumber := Some(c.height), blockHash := Some(FakeBlock(c.height)));
      var status := if c.revertNext > 0 then Reverted else Success;
      c.(transactions := c.transactions[hash := tx],
         revertNext := if c.revertNext > 0 then c.revertNext - 1 else 0,
         receipts := c.receipts[hash := Receipt(status, c.height, FakeBlock(c.height))])
  }

  function IncludeAll(c: Chain, hashes: seq<TxHash>): Chain
  {
    if hashes == [] then c else Include(IncludeAll(c, hashes[..|hashes| - 1]), hashes[|hashes| - 1])
  }

  function MineOne(c: Chain): Chain
  {
    IncludeAll(c.(height := c.height + 1, pendingHashes := []), c.pendingHashes)
  }

  function Mine(c: Chain, count: nat): Chain
  {
    if count == 0 then c else MineOne(Mine(c, count - 1))
  }

  /** None where the send throws: a malformed hash or an injected drop, which also uses up the drop. */
  function Send(c: Chain, checkpoint: CheckpointHash, to: Address): (Chain, Option<Sent>)
  {
    if c.dropNext > 0 then (c.(dropNext := c.dropNext - 1), None)
    else
      var input := AnchorInputData(checkpoint);
      if input.None? then (c, None)
      else
        var hash := FakeTx(c.nonce + 1, input.value);
        var sent := Sent(hash, c.from, to, input.value);
        (c.(nonce := c.nonce + 1,
            transactions := c.transactions[hash := Transaction(hash, c.from, Some(to), input.value, None, None)],
            pendingHashes := c.pendingHashes + [hash],
            sent := c.sent + [sent]),
         Some(sent))
  }

  function TransactionReceipt(c: Chain, hash: TxHash): Option<Receipt>
  {
    if hash in c.receipts then Some(c.receipts[hash]) else None
  }

  function TransactionOf(c: Chain, hash: TxHash): Option<Transaction>
  {
    if hash in c.transactions then Some(c.transactions[hash]) else None
  }

  // ---------------------------------------------------------------- the class

  class FakeChainTransport {
    const from: Address
    const network: Network
    const chainId: nat
    var nonce: nat
    var blockHeight: nat
    var revertNextCount: nat
    var dropNextCount: nat
    var pendingHashes: seq<TxHash>
    var transactions: map<TxHash, Transaction>
    var receipts: map<TxHash, Receipt>
    var sent: seq<Sent>

    ghost function View(): Chain
      reads this
    {
      Chain(from, nonce, blockHeight, revertNextCount, dropNextCount, pendingHashes, transactions, receipts, sent)
    }

    constructor (from: Address, network: Network, chainId: nat)
      ensures View() == NewChain(from) && this.network == network && this.chainId == chainId
    {
      this.from, this.network, this.chainId := from, network, chainId;
      nonce, blockHeight, revertNextCount, dropNextCount := 0, 0, 0, 0;
      pendingHashes, transactions, receipts, sent := [], map[], map[], [];
    }

    method FailNext(count: nat)
      modifies this
      ensures View() == old(View()).(revertNext := old(revertNextCount) + count)
    {
      revertNextCount := revertNextCount + count;
    }

    method DropNext(count: nat)
      modifies this
      ensures View() == old(View()).(dropNext := old(dropNextCount) + count)
    {
      dropNextCount := dropNextCount + count;
    }

    method IncludeInBlock(hash: TxHash)
      modifies this
      ensures View() == Include(old(View()), hash)
      ensures hash in old(transactions) ==>
                && hash in receipts && hash in transactions
                && receipts[hash] == Receipt(if old(revertNextCount) > 0 then Reverted else Success,
                                             blockHeight, FakeBlock(blockHeight))
                && transactions[hash] == old(transactions[hash]).(blockNumber := Some(blockHeight),
                                                                  blockHash := Some(FakeBlock(blockHeight)))
    {
      if hash !in transactions {
        return;
      }
      transactions := transactions[hash := transactions[hash].(
        blockNumber := Some(blockHeight), blockHash := Some(FakeBlock(blockHeight)))];
      var reverted := revertNextCount > 0;
      if reverted {
        revertNextCount := revertNextCount - 1;
      }
      var status := if reverted then Reverted else Success;
      receipts := receipts[hash := Receipt(status, blockHeight, FakeBlock(blockHeight))];
    }

    /** The first block takes everything that is pending, later ones are empty. */
    method MineBlock(count: nat) returns (head: nat)
      modifies this
      ensures View() == Mine(old(View()), count) && head == blockHeight
      ensures Sound(old(View())) ==> Mined(old(View()), View(), count)
    {
      hide Include, Sound, Mined;
      ghost var first := View();
      for index := 0 to count
        invariant View() == Mine(old(View()), index)
      {
        ghost var before := View();
        blockHeight := blockHeight + 1;
        var included := pendingHashes;
        pendingHashes := [];
        ghost var start := View();
        for k := 0 to |included|
          invariant View() == IncludeAll(start, included[..k])
        {
          assert included[..k + 1][..k] == included[..k];
          IncludeInBlock(included[k]);
        }
        assert included[..|included|] == included;
        assert View() == MineOne(before);
      }
      if Sound(first) {
        MineMeans(first, count);
      }
      return blockHeight;
    }

    /** An injected drop comes first and is used up; otherwise only a malformed hash is refused. */
    method SendAnchorTransaction(checkpoint: CheckpointHash, to: Address) returns (r: Option<Sent>)
      modifies this
      ensures (View(), r) == Send(old(View()), checkpoint, to)
      ensures r.Some? <==> old(dropNextCount) == 0 && checkpoint.Sha256?
      ensures r.None? ==>
                View() == old(View()).(dropNext := if old(dropNextCount) > 0 then old(dropNextCount) - 1 else 0)
      ensures r.Some? ==>
                && r.value == Sent(FakeTx(old(nonce) + 1, DigestBytes(checkpoint.digest)), from, to,
                                   DigestBytes(checkpoint.digest))
                && sent == old(sent) + [r.value] && pendingHashes == old(pendingHashes) + [r.value.transactionHash]
                && r.value.transactionHash in transactions
                && transactions[r.value.transactionHash].blockNumber.None?
    {
      if dropNextCount > 0 {
        dropNextCount := dropNextCount - 1;
        return None;
      }
      var inputData := AnchorInputData(checkpoint);
      if inputData.None? {
        return None;
      }
      nonce := nonce + 1;
      var transactionHash := FakeTx(nonce, inputData.value);
      transactions := transactions[transactionHash :=
        Transaction(transactionHash, from, Some(to), inputData.value, None, None)];
      pendingHashes := pendingHashes + [transactionHash];
      var submission := Sent(transactionHash, from, to, inputData.value);
      sent := sent + [submission];
      return Some(submission);
    }

    /** On a sound chain there is a receipt exactly when the transaction is in a block, and it names
        that block, which is no later than the head. */
    method GetTransactionReceipt(hash: TxHash) returns (r: Option<Receipt>)
      ensures r == TransactionReceipt(View(), hash)
      ensures Sound(View()) ==>
                (r.Some? <==> exists t <- View().transactions.Values :: t.hash == hash && t.blockNumber.Some?)
      ensures Sound(View()) && r.Some? ==>
                && r.value.blockNumber <= View().height
                && TransactionOf(View(), hash).Some?
                && TransactionOf(View(), hash).value.blockNumber == Some(r.value.blockNumber)
                && TransactionOf(View(), hash).value.blockHash == Some(r.value.blockHash)
    {
      r := if hash in receipts then Some(receipts[hash]) else None;
    }

    method LatestBlockNumber() returns (head: nat)
      ensures head == View().height
    {
      head := blockHeight;
    }

    /** On a sound chain the transaction carries the hash asked for, whatever was sent is found as it was
        sent, and its block is that of its receipt. */
    method GetTransaction(hash: TxHash) returns (r: Option<Transaction>)
      ensures r == TransactionOf(View(), hash)
      ensures Sound(View()) && r.Some? ==> r.value.hash == hash
      ensures Sound(View()) ==> forall s <- View().sent | s.transactionHash == hash ::
                r.Some? && r.value.from == s.from && r.value.to == Some(s.to) && r.value.input == s.inputData
      ensures Sound(View()) && r.Some? ==> (r.value.blockNumber.Some? <==> TransactionReceipt(View(), hash).Some?)
    {
      r := if hash in transactions then Some(transactions[hash]) else None;
    }
  }

  // ---------------------------------------------------------------- what every run keeps

  predicate IsSent(c: Chain, s: Sent)
  {
    && s.transactionHash in c.transactions
    && var tx := c.transactions[s.transactionHash];
       tx.from == s.from && tx.to == Some(s.to) && tx.input == s.inputData
  }

  /** Included exactly when it has a receipt, which names the same block. */
  predicate InclusionAgrees(c: Chain, hash: TxHash)
    requires hash in c.transactions
  {
    var tx := c.transactions[hash];
    if hash in c.receipts then
      && tx.blockNumber == Some(c.receipts[hash].blockNumber)
      && tx.blockHash == Some(c.receipts[hash].blockHash)
      && c.receipts[hash].blockNumber <= c.height
    else tx.blockNumber.None? && tx.blockHash.None?
  }

  predicate SentAsListed(c: Chain)
  {
    && |c.sent| == c.nonce
    && forall i | 0 <= i < |c.sent| ::
         c.sent[i].transactionHash == FakeTx(i + 1, c.sent[i].inputData) && IsSent(c, c.sent[i])
  }

  predicate BlocksAgree(c: Chain)
  {
    && (forall h <- c.transactions :: c.transactions[h].hash == h && InclusionAgrees(c, h))
    && c.receipts.Keys <= c.transactions.Keys
    && (forall h <- c.transactions :: h.FakeTx? && h.nonce <= c.nonce)
  }

  /** Every transaction is either pending or in a block, and pending once. */
  predicate PendingOrMined(c: Chain, pending: seq<TxHash>)
  {
    && (forall h <- c.transactions :: h in c.receipts || h in pending)
    && (forall h <- pending :: h in c.transactions && h !in c.receipts)
    && (forall i, j | 0 <= i < j < |pending| :: pending[i] != pending[j])
  }

  ghost predicate Sound(c: Chain)
  {
    SentAsListed(c) && BlocksAgree(c) && PendingOrMined(c, c.pendingHashes)
  }

  /** Nothing that was sent is forgotten and nothing that was included changes. */
  ghost predicate Extends(c: Chain, d: Chain)
  {
    && c.sent <= d.sent && c.height <= d.height
    && (forall h <- c.receipts :: h in d.receipts && d.receipts[h] == c.receipts[h])
  }

  lemma ExtendsTrans(c: Chain, d: Chain, e: Chain)
    requires Extends(c, d) && Extends(d, e)
    ensures Extends(c, e)
  {
  }

  /** During inclusion the hashes still to come are in pending. */
  ghost predicate Including(c: Chain, todo: seq<TxHash>)
  {
    SentAsListed(c) && BlocksAgree(c) && PendingOrMined(c, todo) && c.pendingHashes == []
  }

  lemma IncludeKeeps(c: Chain, hash: TxHash, todo: seq<TxHash>)
    requires Including(c, [hash] + todo)
    ensures Including(Include(c, hash), todo) && Extends(c, Include(c, hash))
    ensures Include(c, hash).sent == c.sent && Include(c, hash).height == c.height
  {
    assert ([hash] + todo)[0] == hash;
    IncludeKeepsSent(c, hash);
    IncludeKeepsBlocks(c, hash);
    IncludeKeepsPending(c, hash, todo);
    hide SentAsListed, BlocksAgree, IsSent, InclusionAgrees;
  }

  lemma IncludeKeepsSent(c: Chain, hash: TxHash)
    requires SentAsListed(c)
    ensures SentAsListed(Include(c, hash))
  {
    forall i | 0 <= i < |c.sent|
      ensures IsSent(Include(c, hash), c.sent[i])
    {
      assert IsSent(c, c.sent[i]);
    }
  }

  lemma IncludeKeepsBlocks(c: Chain, hash: TxHash)
    requires BlocksAgree(c)
    ensures BlocksAgree(Include(c, hash))
  {
    var d := Include(c, hash);
    forall h <- d.transactions
      ensures d.transactions[h].hash == h && InclusionAgrees(d, h)
    {
      assert InclusionAgrees(c, h);
    }
  }

  lemma IncludeKeepsPending(c: Chain, hash: TxHash, todo: seq<TxHash>)
    requires PendingOrMined(c, [hash] + todo)
    ensures PendingOrMined(Include(c, hash), todo)
  {
    var all := [hash] + todo;
    assert all[0] == hash;
    assert forall h :: h in all <==> h == hash || h in todo;
    forall k | 0 <= k < |todo|
      ensures todo[k] == all[k + 1] && todo[k] != hash
    {
    }
    forall i, j | 0 <= i < j < |todo|
      ensures todo[i] != todo[j]
    {
      assert all[i + 1] == todo[i] && all[j + 1] == todo[j];
    }
  }

  lemma {:induction false} IncludeAllKeeps(c: Chain, done: seq<TxHash>, todo: seq<TxHash>)
    requires Including(c, done + todo)
    ensures Including(IncludeAll(c, done), todo) && Extends(c, IncludeAll(c, done))
    ensures IncludeAll(c, done).sent == c.sent && IncludeAll(c, done).height == c.height
    decreases |done|
  {
    hide Including, Include;
    if done == [] {
      assert done + todo == todo;
    } else {
      var n := |done| - 1;
      assert done + todo == done[..n] + ([done[n]] + todo);
      IncludeAllKeeps(c, done[..n], [done[n]] + todo);
      IncludeKeeps(IncludeAll(c, done[..n]), done[n], todo);
    }
  }

  lemma MineOneKeeps(c: Chain)
    requires Sound(c)
    ensures Sound(MineOne(c)) && Extends(c, MineOne(c))
    ensures MineOne(c).sent == c.sent && MineOne(c).height == c.height + 1
  {
    var start := c.(height := c.height + 1, pendingHashes := []);
    RaiseKeeps(c);
    hide Sound, IncludeAll, Including, Extends;
    assert c.pendingHashes + [] == c.pendingHashes;
    IncludeAllKeeps(start, c.pendingHashes, []);
    ExtendsTrans(c, start, MineOne(c));
    IncludedAll(IncludeAll(start, c.pendingHashes));
  }

  lemma RaiseKeeps(c: Chain)
    requires Sound(c)
    ensures Including(c.(height := c.height + 1, pendingHashes := []), c.pendingHashes)
    ensures Extends(c, c.(height := c.height + 1, pendingHashes := []))
  {
  }

  lemma IncludedAll(c: Chain)
    requires Including(c, [])
    ensures Sound(c)
  {
    assert c.(pendingHashes := []) == c;
  }

  lemma {:induction false} MineKeeps(c: Chain, count: nat)
    requires Sound(c)
    ensures Sound(Mine(c, count)) && Extends(c, Mine(c, count))
    ensures Mine(c, count).sent == c.sent && Mine(c, count).height == c.height + count
  {
    hide Sound, MineOne;
    if count > 0 {
      MineKeeps(c, count - 1);
      MineOneKeeps(Mine(c, count - 1));
      ExtendsTrans(c, Mine(c, count - 1), Mine(c, count));
    }
  }

  // ---------------------------------------------------------------- what mining does

  /** The count of reverts left after n of them were used. */
  function LeftAfter(reverts: nat, n: nat): nat
  {
    if reverts < n then 0 else reverts - n
  }

  /** The transaction as the block of that height shows it. */
  function InBlock(tx: Transaction, height: nat): Transaction
  {
    tx.(blockNumber := Some(height), blockHash := Some(FakeBlock(height)))
  }

  /** These hashes, in order, are in the block of that height: the injected reverts first, then successes.
      Whatever was in a block before is untouched, and so is what is not among the hashes. */
  ghost predicate Blocked(c: Chain, d: Chain, hashes: seq<TxHash>, height: nat)
  {
    && d.revertNext == LeftAfter(c.revertNext, |hashes|)
    && (forall h :: h in d.receipts <==> h in c.receipts || h in hashes)
    && (forall h <- c.receipts | h !in hashes :: d.receipts[h] == c.receipts[h])
    && (forall i | 0 <= i < |hashes| :: hashes[i] in d.receipts && d.receipts[hashes[i]]
          == Receipt(if i < c.revertNext then Reverted else Success, height, FakeBlock(height)))
    && (forall h :: h in d.transactions <==> h in c.transactions)
    && (forall h <- c.transactions :: h in d.transactions
          && d.transactions[h] == if h in hashes then InBlock(c.transactions[h], height) else c.transactions[h])
  }

  /** What has nothing to do with blocks. */
  predicate SameSender(c: Chain, d: Chain)
  {
    d.from == c.from && d.nonce == c.nonce && d.dropNext == c.dropNext && d.sent == c.sent
  }

  /** Mining puts every pending transaction into the next block and raises the head by the count. */
  ghost predicate Mined(c: Chain, d: Chain, count: nat)
  {
    && SameSender(c, d) && d.height == c.height + count
    && (if count == 0 then d == c else d.pendingHashes == [] && Blocked(c, d, c.pendingHashes, c.height + 1))
  }

  predicate AllPresent(c: Chain, hashes: seq<TxHash>)
  {
    && (forall h <- hashes :: h in c.transactions)
    && (forall i, j | 0 <= i < j < |hashes| :: hashes[i] != hashes[j])
  }

  lemma BlockedStep(c: Chain, d: Chain, hashes: seq<TxHash>, hash: TxHash)
    requires Blocked(c, d, hashes, d.height) && hash in c.transactions && hash !in hashes
    ensures Blocked(c, Include(d, hash), hashes + [hash], d.height)
    ensures SameSender(d, Include(d, hash)) && Include(d, hash).height == d.height
    ensures Include(d, hash).pendingHashes == d.pendingHashes
  {
    var e := Include(d, hash);
    var all := hashes + [hash];
    forall i | 0 <= i < |all|
      ensures all[i] in e.receipts && e.receipts[all[i]]
           == Receipt(if i < c.revertNext then Reverted else Success, d.height, FakeBlock(d.height))
    {
      if i < |hashes| {
        assert all[i] == hashes[i] && hashes[i] in hashes;
      }
    }
    assert forall h :: h in all <==> h in hashes || h == hash;
  }

  lemma {:induction false} IncludeAllBlocks(c: Chain, hashes: seq<TxHash>)
    requires AllPresent(c, hashes)
    ensures Blocked(c, IncludeAll(c, hashes), hashes, c.height)
    ensures SameSender(c, IncludeAll(c, hashes)) && IncludeAll(c, hashes).height == c.height
    ensures IncludeAll(c, hashes).pendingHashes == c.pendingHashes
    decreases |hashes|
  {
    if hashes == [] {
    } else {
      hide Blocked, Include;
      var n := |hashes| - 1;
      assert hashes == hashes[..n] + [hashes[n]];
      IncludeAllBlocks(c, hashes[..n]);
      BlockedStep(c, IncludeAll(c, hashes[..n]), hashes[..n], hashes[n]);
    }
  }

  lemma MineOneMeans(c: Chain)
    requires Sound(c)
    ensures Mined(c, MineOne(c), 1)
  {
    var start := c.(height := c.height + 1, pendingHashes := []);
    PendingIsPresent(c, start);
    hide *;
    IncludeAllBlocks(start, c.pendingHashes);
    BlockIsMined(c, start, IncludeAll(start, c.pendingHashes));
    MineOneIs(c);
  }

  lemma MineOneIs(c: Chain)
    ensures MineOne(c) == IncludeAll(c.(height := c.height + 1, pendingHashes := []), c.pendingHashes)
  {
    hide IncludeAll;
  }

  lemma PendingIsPresent(c: Chain, start: Chain)
    requires Sound(c) && start.transactions == c.transactions
    ensures AllPresent(start, c.pendingHashes)
  {
    hide SentAsListed, BlocksAgree;
  }

  lemma BlockIsMined(c: Chain, start: Chain, d: Chain)
    requires start == c.(height := c.height + 1, pendingHashes := [])
    requires Blocked(start, d, c.pendingHashes, start.height) && SameSender(start, d)
    requires d.height == start.height && d.pendingHashes == []
    ensures Mined(c, d, 1)
  {
    hide InBlock;
  }

  lemma MinedOnceMore(c: Chain, d: Chain, e: Chain, n: nat)
    requires n > 0 && Mined(c, d, n) && Mined(d, e, 1)
    ensures Mined(c, e, n + 1)
  {
    hide InBlock;
    assert forall h <- d.receipts :: h in e.receipts && e.receipts[h] == d.receipts[h];
    assert forall h <- d.transactions :: h in e.transactions && e.transactions[h] == d.transactions[h];
  }

  /** Every transaction that is pending when mining starts is in the next block, in order, and the first
      of them take up the injected reverts; nothing that was mined before changes. */
  lemma {:induction false} MineMeans(c: Chain, count: nat)
    requires Sound(c)
    ensures Mined(c, Mine(c, count), count)
  {
    hide Sound, MineOne;
    if count > 0 {
      hide Mined;
      MineMeans(c, count - 1);
      MineKeeps(c, count - 1);
      MineOneMeans(Mine(c, count - 1));
      if count > 1 {
        MinedOnceMore(c, Mine(c, count - 1), Mine(c, count), count - 1);
      } else {
        assert Mine(c, 0) == c;
      }
    }
  }

  /** A send appends one transaction, which is then pending, or changes nothing but the drop counter. */
  lemma SendKeeps(c: Chain, checkpoint: CheckpointHash, to: Address)
    requires Sound(c)
    ensures var (d, r) := Send(c, checkpoint, to);
      && Sound(d) && Extends(c, d)
      && d.sent == c.sent + (if r.Some? then [r.value] else [])
      && (r.Some? ==> checkpoint.Sha256? && r.value.inputData == DigestBytes(checkpoint.digest) && r.value.to == to)
      && (r.Some? ==> r.value.transactionHash in d.pendingHashes)
  {
    SendKeepsSent(c, checkpoint, to);
    SendKeepsBlocks(c, checkpoint, to);
    SendKeepsPending(c, checkpoint, to);
    hide SentAsListed, BlocksAgree, PendingOrMined;
  }

  lemma SendKeepsSent(c: Chain, checkpoint: CheckpointHash, to: Address)
    requires Sound(c)
    ensures SentAsListed(Send(c, checkpoint, to).0)
  {
    hide PendingOrMined, InclusionAgrees;
    var (d, r) := Send(c, checkpoint, to);
    if r.Some? {
      assert r.value.transactionHash !in c.transactions;
      forall i | 0 <= i < |d.sent|
        ensures d.sent[i].transactionHash == FakeTx(i + 1, d.sent[i].inputData) && IsSent(d, d.sent[i])
      {
        if i < |c.sent| {
          assert IsSent(c, c.sent[i]);
        }
      }
    }
  }

  lemma SendKeepsBlocks(c: Chain, checkpoint: CheckpointHash, to: Address)
    requires Sound(c)
    ensures BlocksAgree(Send(c, checkpoint, to).0)
  {
    hide PendingOrMined, SentAsListed;
    var d := Send(c, checkpoint, to).0;
    forall h <- d.transactions
      ensures d.transactions[h].hash == h && InclusionAgrees(d, h)
    {
      if h in c.transactions {
        assert InclusionAgrees(c, h);
      }
    }
  }

  lemma SendKeepsPending(c: Chain, checkpoint: CheckpointHash, to: Address)
    requires Sound(c)
    ensures var d := Send(c, checkpoint, to).0; PendingOrMined(d, d.pendingHashes)
  {
    hide SentAsListed, InclusionAgrees;
  }
}
