/** What one submission and one wait for confirmation do, as functions of the chain, the evidence
    store, the sidecar and the reservations. The environment mines mined(i) blocks in the i-th sleep
    of an operation. */
module AnchorProtocol {
  import opened Wrappers
  import opened AnchorChain
  import opened AnchorVerify

  datatype Config = Config(
    chainId: nat, network: Network, required: nat, attempts: nat, pollAttempts: nat, anchorAddress: Address,
    pendingFile: bool, allowMainnet: bool, envAllows: bool)

  datatype Error =
    | MainnetDisabled | UnknownRun | UnknownCheckpoint | MalformedHash | SubmissionFailed | InsertConflict

  /** A manifest names its run by hash. */
  datatype RunIdHash = HashOfRun(runId: RunId) | NoRun(text: nat)

  datatype Manifest = Manifest(runIdHash: RunIdHash, checkpointSequence: nat, checkpointHash: CheckpointHash)

  datatype Evidence = Evidence(
    runs: seq<RunId>, checkpoints: map<RunId, set<CheckpointHash>>, rows: seq<AnchorReceipt>)

  type Key = (nat, CheckpointHash)

  datatype World = World(chain: Chain, evidence: Evidence, sidecar: seq<Anchor>, reservations: map<Key, Anchor>)

  // ---------------------------------------------------------------- lookups

  predicate NetworkAllowed(cfg: Config)
  {
    cfg.network == BaseMainnet ==> cfg.allowMainnet && cfg.envAllows
  }

  predicate RowFor(r: AnchorReceipt, chainId: nat, runId: RunId, c: CheckpointHash)
  {
    r.anchor.runId == runId && r.anchor.chainId == chainId && r.anchor.checkpointHash == c
  }

  predicate RowForTx(r: AnchorReceipt, chainId: nat, runId: RunId, tx: TxHash)
  {
    r.anchor.runId == runId && r.anchor.chainId == chainId && r.anchor.transactionHash == tx
  }

  function FindRow(rows: seq<AnchorReceipt>, chainId: nat, runId: RunId, c: CheckpointHash): Option<AnchorReceipt>
  {
    if rows == [] then None
    else if RowFor(rows[0], chainId, runId, c) then Some(rows[0])
    else FindRow(rows[1..], chainId, runId, c)
  }

  function FindRowForTx(rows: seq<AnchorReceipt>, chainId: nat, runId: RunId, tx: TxHash): Option<AnchorReceipt>
  {
    if rows == [] then None
    else if RowForTx(rows[0], chainId, runId, tx) then Some(rows[0])
    else FindRowForTx(rows[1..], chainId, runId, tx)
  }

  function FindPending(sidecar: seq<Anchor>, chainId: nat, c: CheckpointHash): Option<Anchor>
  {
    if sidecar == [] then None
    else if sidecar[0].chainId == chainId && sidecar[0].checkpointHash == c then Some(sidecar[0])
    else FindPending(sidecar[1..], chainId, c)
  }

  function RemovePending(sidecar: seq<Anchor>, chainId: nat, tx: TxHash): seq<Anchor>
  {
    if sidecar == [] then []
    else
      var rest := RemovePending(sidecar[1..], chainId, tx);
      if sidecar[0].chainId == chainId && sidecar[0].transactionHash == tx then rest else [sidecar[0]] + rest
  }

  /** Idempotent by chain and transaction. */
  function AddPending(sidecar: seq<Anchor>, a: Anchor): seq<Anchor>
  {
    RemovePending(sidecar, a.chainId, a.transactionHash) + [a]
  }

  lemma {:induction false} RemovePendingIs(sidecar: seq<Anchor>, chainId: nat, tx: TxHash)
    ensures forall a :: a in RemovePending(sidecar, chainId, tx)
                   <==> a in sidecar && !(a.chainId == chainId && a.transactionHash == tx)
  {
    if sidecar != [] {
      RemovePendingIs(sidecar[1..], chainId, tx);
      assert forall a :: a in sidecar <==> a == sidecar[0] || a in sidecar[1..];
    }
  }

  lemma {:induction false} FindPendingFinds(sidecar: seq<Anchor>, chainId: nat, c: CheckpointHash)
    ensures var f := FindPending(sidecar, chainId, c);
      if f.Some? then f.value in sidecar && f.value.chainId == chainId && f.value.checkpointHash == c
      else forall a <- sidecar :: !(a.chainId == chainId && a.checkpointHash == c)
  {
    if sidecar != [] && !(sidecar[0].chainId == chainId && sidecar[0].checkpointHash == c) {
      FindPendingFinds(sidecar[1..], chainId, c);
      assert forall a <- sidecar :: a == sidecar[0] || a in sidecar[1..];
    }
  }

  lemma {:induction false} FindRowFinds(rows: seq<AnchorReceipt>, chainId: nat, runId: RunId, c: CheckpointHash)
    ensures var f := FindRow(rows, chainId, runId, c);
      if f.Some? then f.value in rows && RowFor(f.value, chainId, runId, c)
      else forall r <- rows :: !RowFor(r, chainId, runId, c)
  {
    if rows != [] && !RowFor(rows[0], chainId, runId, c) {
      FindRowFinds(rows[1..], chainId, runId, c);
      assert forall r <- rows :: r == rows[0] || r in rows[1..];
    }
  }

  lemma {:induction false} FindRowForTxFinds(rows: seq<AnchorReceipt>, chainId: nat, runId: RunId, tx: TxHash)
    ensures var f := FindRowForTx(rows, chainId, runId, tx);
      if f.Some? then f.value in rows && RowForTx(f.value, chainId, runId, tx)
      else forall r <- rows :: !RowForTx(r, chainId, runId, tx)
  {
    if rows != [] && !RowForTx(rows[0], chainId, runId, tx) {
      FindRowForTxFinds(rows[1..], chainId, runId, tx);
      assert forall r <- rows :: r == rows[0] || r in rows[1..];
    }
  }

  function PendingSubmissions(cfg: Config, w: World): seq<Anchor>
  {
    if cfg.pendingFile then w.sidecar else []
  }

  function Reserved(cfg: Config, w: World, c: CheckpointHash): Option<Anchor>
  {
    if (cfg.chainId, c) in w.reservations then Some(w.reservations[(cfg.chainId, c)])
    else FindPending(PendingSubmissions(cfg, w), cfg.chainId, c)
  }

  function ReceiptFromPending(a: Anchor): AnchorReceipt
  {
    AnchorReceipt(a, None, None, Submitted, 0)
  }

  // ---------------------------------------------------------------- submit

  type Sleeps = nat -> nat

  function SendWithRetry(cfg: Config, c: Chain, h: CheckpointHash, attempt: nat, mined: Sleeps): (Chain, Option<Sent>)
    requires 1 <= attempt <= cfg.attempts
    decreases cfg.attempts - attempt
  {
    var (d, r) := Send(c, h, cfg.anchorAddress);
    if r.Some? || attempt == cfg.attempts then (d, r)
    else SendWithRetry(cfg, Mine(d, mined(attempt)), h, attempt + 1, mined)
  }

  function Submission(cfg: Config, runId: RunId, m: Manifest, s: Sent): Anchor
  {
    Anchor(runId, m.checkpointSequence, m.checkpointHash, cfg.network, cfg.chainId,
           s.transactionHash, s.from, s.to, s.inputData)
  }

  /** Reserve in memory and, when configured, in the sidecar. */
  function Reserve(cfg: Config, w: World, a: Anchor): World
  {
    w.(reservations := w.reservations[(cfg.chainId, a.checkpointHash) := a],
       sidecar := if cfg.pendingFile then AddPending(w.sidecar, a) else w.sidecar)
  }

  function SendAndReserve(cfg: Config, w: World, runId: RunId, m: Manifest, mined: Sleeps)
    : (World, Result<AnchorReceipt, Error>)
    requires cfg.attempts >= 1
  {
    if AnchorInputData(m.checkpointHash).None? then (w, Err(MalformedHash))
    else
      var (d, r) := SendWithRetry(cfg, w.chain, m.checkpointHash, 1, mined);
      if r.None? then (w.(chain := d), Err(SubmissionFailed))
      else
        var a := Submission(cfg, runId, m, r.value);
        (Reserve(cfg, w.(chain := d), a), Ok(ReceiptFromPending(a)))
  }

  function Submit(cfg: Config, w: World, m: Manifest, mined: Sleeps): (World, Result<AnchorReceipt, Error>)
    requires cfg.attempts >= 1
  {
    if !NetworkAllowed(cfg) then (w, Err(MainnetDisabled))
    else if m.runIdHash.NoRun? || m.runIdHash.runId !in w.evidence.runs then (w, Err(UnknownRun))
    else
      var runId := m.runIdHash.runId;
      if runId !in w.evidence.checkpoints || m.checkpointHash !in w.evidence.checkpoints[runId] then
        (w, Err(UnknownCheckpoint))
      else
        var existing := FindRow(w.evidence.rows, cfg.chainId, runId, m.checkpointHash);
        var reserved := Reserved(cfg, w, m.checkpointHash);
        if existing.Some? then (w, Ok(existing.value))
        else if reserved.Some? then (w, Ok(ReceiptFromPending(reserved.value)))
        else SendAndReserve(cfg, w, runId, m, mined)
  }

  /** What the sends of one submission come to: each drop the network still owes costs one attempt, so a
      transaction goes out exactly when there are fewer drops than attempts, and then exactly one. */
  lemma {:induction false} RetryOutlastsDrops(cfg: Config, c: Chain, h: CheckpointHash, attempt: nat, mined: Sleeps)
    requires Sound(c) && 1 <= attempt <= cfg.attempts && h.Sha256?
    ensures var (d, r) := SendWithRetry(cfg, c, h, attempt, mined);
      var left := cfg.attempts - attempt + 1;
      if left <= c.dropNext then
        r.None? && d.dropNext == c.dropNext - left && d.sent == c.sent
      else
        && r == Some(Sent(FakeTx(c.nonce + 1, DigestBytes(h.digest)), c.from, cfg.anchorAddress,
                          DigestBytes(h.digest)))
        && d.sent == c.sent + [r.value] && d.dropNext == 0 && r.value.transactionHash in d.pendingHashes
    decreases cfg.attempts - attempt
  {
    hide Sound, Mine, Mined;
    SendKeeps(c, h, cfg.anchorAddress);
    if c.dropNext > 0 && attempt < cfg.attempts {
      var d := Send(c, h, cfg.anchorAddress).0;
      MineKeeps(d, mined(attempt));
      MineMeans(d, mined(attempt));
      MinedIsSameSender(d, Mine(d, mined(attempt)), mined(attempt));
      RetryOutlastsDrops(cfg, Mine(d, mined(attempt)), h, attempt + 1, mined);
    }
  }

  lemma MinedIsSameSender(c: Chain, d: Chain, n: nat)
    requires Mined(c, d, n)
    ensures d.from == c.from && d.nonce == c.nonce && d.dropNext == c.dropNext && d.sent == c.sent
  {
  }

  /** A receipt of which nothing is known but that its transaction was sent. */
  predicate IsFresh(r: AnchorReceipt)
  {
    r.status == Submitted && r.blockNumber.None? && r.blockHash.None? && r.confirmations == 0
  }

  /** What a submission has to do: answer from the first record there is, in the order row, reservation,
      sidecar, and send exactly once when there is none. */
  ghost predicate SubmitOutcome(cfg: Config, w: World, m: Manifest, v: World, r: Result<AnchorReceipt, Error>)
    requires cfg.attempts >= 1
  {
    var h := m.checkpointHash;
    if cfg.network == BaseMainnet && !(cfg.allowMainnet && cfg.envAllows) then v == w && r == Err(MainnetDisabled)
    else if m.runIdHash.NoRun? || m.runIdHash.runId !in w.evidence.runs then v == w && r == Err(UnknownRun)
    else
      var runId := m.runIdHash.runId;
      if runId !in w.evidence.checkpoints || h !in w.evidence.checkpoints[runId] then
        v == w && r == Err(UnknownCheckpoint)
      else if exists q <- w.evidence.rows :: RowFor(q, cfg.chainId, runId, h) then
        v == w && r.Ok? && r.value in w.evidence.rows && RowFor(r.value, cfg.chainId, runId, h)
      else if (cfg.chainId, h) in w.reservations then
        v == w && r.Ok? && r.value.anchor == w.reservations[(cfg.chainId, h)] && IsFresh(r.value)
      else if cfg.pendingFile && exists a <- w.sidecar :: a.chainId == cfg.chainId && a.checkpointHash == h then
        && v == w && r.Ok? && r.value.anchor in w.sidecar && IsFresh(r.value)
        && r.value.anchor.chainId == cfg.chainId && r.value.anchor.checkpointHash == h
      else if h.NotAHash? then v == w && r == Err(MalformedHash)
      else SendOutcome(cfg, w, runId, m, v, r)
  }

  ghost predicate SendOutcome(cfg: Config, w: World, runId: RunId, m: Manifest, v: World,
                              r: Result<AnchorReceipt, Error>)
    requires cfg.attempts >= 1 && m.checkpointHash.Sha256?
  {
    var bytes := DigestBytes(m.checkpointHash.digest);
    if cfg.attempts <= w.chain.dropNext then
      && r == Err(SubmissionFailed) && v == w.(chain := v.chain)
      && v.chain.sent == w.chain.sent && v.chain.dropNext == w.chain.dropNext - cfg.attempts
    else
      var tx := FakeTx(w.chain.nonce + 1, bytes);
      var a := Anchor(runId, m.checkpointSequence, m.checkpointHash, cfg.network, cfg.chainId,
                      tx, w.chain.from, cfg.anchorAddress, bytes);
      && r.Ok? && r.value.anchor == a && IsFresh(r.value)
      && v.chain.sent == w.chain.sent + [Sent(tx, w.chain.from, cfg.anchorAddress, bytes)]
      && v.chain.dropNext == 0 && tx in v.chain.pendingHashes
      && v.evidence == w.evidence && v.reservations == w.reservations[(cfg.chainId, m.checkpointHash) := a]
      && (forall b :: b in v.sidecar <==>
            if cfg.pendingFile then
              b == a || (b in w.sidecar && !(b.chainId == cfg.chainId && b.transactionHash == tx))
            else b in w.sidecar)
  }

  lemma SendMeans(cfg: Config, w: World, runId: RunId, m: Manifest, mined: Sleeps)
    requires cfg.attempts >= 1 && Sound(w.chain) && m.checkpointHash.Sha256?
    ensures var (v, r) := SendAndReserve(cfg, w, runId, m, mined); SendOutcome(cfg, w, runId, m, v, r)
  {
    hide Sound, SendWithRetry, RemovePending;
    RetryOutlastsDrops(cfg, w.chain, m.checkpointHash, 1, mined);
    RemovePendingIs(w.sidecar, cfg.chainId, FakeTx(w.chain.nonce + 1, DigestBytes(m.checkpointHash.digest)));
  }

  lemma SubmitMeans(cfg: Config, w: World, m: Manifest, mined: Sleeps)
    requires cfg.attempts >= 1 && Sound(w.chain)
    ensures var (v, r) := Submit(cfg, w, m, mined); SubmitOutcome(cfg, w, m, v, r)
  {
    hide Sound, SendAndReserve, SendOutcome, FindRow, FindPending;
    if m.runIdHash.HashOfRun? {
      FindRowFinds(w.evidence.rows, cfg.chainId, m.runIdHash.runId, m.checkpointHash);
      FindPendingFinds(w.sidecar, cfg.chainId, m.checkpointHash);
      NoneInNone(cfg.chainId, m.checkpointHash);
      if m.checkpointHash.Sha256? {
        SendMeans(cfg, w, m.runIdHash.runId, m, mined);
      } else {
        MalformedIsRefused(cfg, w, m.runIdHash.runId, m, mined);
      }
    }
  }

  lemma DisallowedSubmit(cfg: Config, w: World, m: Manifest, mined: Sleeps)
    requires cfg.attempts >= 1 && !NetworkAllowed(cfg)
    ensures Submit(cfg, w, m, mined) == (w, Err(MainnetDisabled))
  {
  }

  lemma NoneInNone(chainId: nat, h: CheckpointHash)
    ensures FindPending([], chainId, h).None?
  {
  }

  lemma MalformedIsRefused(cfg: Config, w: World, runId: RunId, m: Manifest, mined: Sleeps)
    requires cfg.attempts >= 1 && m.checkpointHash.NotAHash?
    ensures SendAndReserve(cfg, w, runId, m, mined) == (w, Err(MalformedHash))
  {
  }

  // ---------------------------------------------------------------- confirmation

  datatype Inclusion = Inclusion(blockNumber: nat, blockHash: BlockHash, confirmations: nat)

  /** final is None when the poll budget ran out. */
  datatype Verdict = Verdict(final: Option<ReceiptStatus>, observed: Option<Inclusion>)

  function Observe(c: Chain, tx: TxHash): Option<Inclusion>
  {
    var r := TransactionReceipt(c, tx);
    if r.None? then None
    else Some(Inclusion(r.value.blockNumber, r.value.blockHash,
                        if c.height + 1 < r.value.blockNumber then 0 else c.height + 1 - r.value.blockNumber))
  }

  /** What one poll decides. */
  function Decide(c: Chain, tx: TxHash, required: nat): Option<ReceiptStatus>
  {
    if tx !in c.receipts then None
    else if c.receipts[tx].status == Reverted then Some(Failed)
    else if Observe(c, tx).value.confirmations >= required then Some(Confirmed)
    else None
  }

  function Poll(cfg: Config, c: Chain, tx: TxHash, attempt: nat, seen: Option<Inclusion>, mined: Sleeps)
    : (Chain, Verdict)
    requires 1 <= attempt <= cfg.pollAttempts
    decreases cfg.pollAttempts - attempt
  {
    var observed := if tx in c.receipts then Observe(c, tx) else seen;
    var decision := Decide(c, tx, cfg.required);
    if decision.Some? || attempt == cfg.pollAttempts then (c, Verdict(decision, observed))
    else Poll(cfg, Mine(c, mined(attempt)), tx, attempt + 1, observed, mined)
  }

  function WithInclusion(r: AnchorReceipt, status: ReceiptStatus, i: Option<Inclusion>): AnchorReceipt
  {
    if i.None? then r.(status := status)
    else AnchorReceipt(r.anchor, Some(i.value.blockNumber), Some(i.value.blockHash), status, i.value.confirmations)
  }

  /** The primary key of the receipt table. */
  predicate KeyTaken(rows: seq<AnchorReceipt>, a: Anchor)
  {
    exists r <- rows :: r.anchor.chainId == a.chainId && r.anchor.transactionHash == a.transactionHash
  }

  /** Insert the row, then drop the reservation and the sidecar entry; a row already there wins. */
  function Finalize(cfg: Config, w: World, r: AnchorReceipt): (World, Result<AnchorReceipt, Error>)
  {
    var stored := FindRowForTx(w.evidence.rows, cfg.chainId, r.anchor.runId, r.anchor.transactionHash);
    if stored.Some? then (w, Ok(stored.value))
    else if KeyTaken(w.evidence.rows, r.anchor) then (w, Err(InsertConflict))
    else
      (w.(evidence := w.evidence.(rows := w.evidence.rows + [r]),
          reservations := w.reservations - {(r.anchor.chainId, r.anchor.checkpointHash)},
          sidecar := if cfg.pendingFile then RemovePending(w.sidecar, r.anchor.chainId, r.anchor.transactionHash)
                     else w.sidecar),
       Ok(r))
  }

  /** Not a decision: nothing is written. */
  function GiveUp(cfg: Config, w: World, r: AnchorReceipt, observed: Option<Inclusion>): AnchorReceipt
  {
    var stored := FindRowForTx(w.evidence.rows, cfg.chainId, r.anchor.runId, r.anchor.transactionHash);
    if stored.Some? then stored.value else WithInclusion(r, Submitted, observed)
  }

  function Await(cfg: Config, w: World, r: AnchorReceipt, mined: Sleeps): (World, Result<AnchorReceipt, Error>)
    requires cfg.pollAttempts >= 1
  {
    if !NetworkAllowed(cfg) then (w, Err(MainnetDisabled))
    else
      var (c, verdict) := Poll(cfg, w.chain, r.anchor.transactionHash, 1, None, mined);
      var polled := w.(chain := c);
      if verdict.final.Some? then Finalize(cfg, polled, WithInclusion(r, verdict.final.value, verdict.observed))
      else (polled, Ok(GiveUp(cfg, polled, r, verdict.observed)))
  }

  // ---------------------------------------------------------------- what waiting has to do

  /** How deep the chain shows the transaction: the head itself is depth 1. */
  function DepthOn(d: Chain, tx: TxHash): int
    requires tx in d.receipts
  {
    d.height + 1 - d.receipts[tx].blockNumber
  }

  /** The chain shows the transaction reverted, or successful at the required depth. */
  predicate Decides(cfg: Config, d: Chain, tx: TxHash)
  {
    tx in d.receipts && (d.receipts[tx].status == Reverted || DepthOn(d, tx) >= cfg.required)
  }

  /** Polling ends on the chain of the first poll that decides, else on that of the last poll. */
  ghost predicate PolledUntil(cfg: Config, c: Chain, tx: TxHash, mined: Sleeps, d: Chain)
  {
    exists n: nat ::
      && n < cfg.pollAttempts && d == ChainAfter(c, 1, n, mined)
      && (forall i: nat | i < n :: !Decides(cfg, ChainAfter(c, 1, i, mined), tx))
      && (Decides(cfg, d, tx) || n == cfg.pollAttempts - 1)
  }

  /** The receipt with what the chain shows of its transaction, or as it was when the chain shows nothing. */
  ghost predicate Updated(r: AnchorReceipt, d: Chain, status: ReceiptStatus, after: AnchorReceipt)
  {
    && after.anchor == r.anchor && after.status == status
    && (if r.anchor.transactionHash in d.receipts then
          && after.blockNumber == Some(d.receipts[r.anchor.transactionHash].blockNumber)
          && after.blockHash == Some(d.receipts[r.anchor.transactionHash].blockHash)
          && after.confirmations == DepthOn(d, r.anchor.transactionHash)
        else
          && after.blockNumber == r.blockNumber && after.blockHash == r.blockHash
          && after.confirmations == r.confirmations)
  }

  /** What waiting for a receipt has to do once polling has ended on v.chain. A stored row always wins.
      Otherwise a decision becomes the row, and the answer; and without a decision the answer is a
      submitted receipt and nothing is stored. */
  ghost predicate AwaitOutcome(cfg: Config, w: World, r: AnchorReceipt, v: World, answer: Result<AnchorReceipt, Error>)
  {
    var a, d := r.anchor, v.chain;
    if exists q <- w.evidence.rows :: RowForTx(q, cfg.chainId, a.runId, a.transactionHash) then
      && v == w.(chain := d) && answer.Ok? && answer.value in w.evidence.rows
      && RowForTx(answer.value, cfg.chainId, a.runId, a.transactionHash)
    else if !Decides(cfg, d, a.transactionHash) then
      v == w.(chain := d) && answer.Ok? && Updated(r, d, Submitted, answer.value)
    else if exists q <- w.evidence.rows ::
              q.anchor.chainId == a.chainId && q.anchor.transactionHash == a.transactionHash then
      v == w.(chain := d) && answer == Err(InsertConflict)
    else
      && answer.Ok?
      && Updated(r, d, if d.receipts[a.transactionHash].status == Reverted then Failed else Confirmed, answer.value)
      && v.evidence == w.evidence.(rows := w.evidence.rows + [answer.value])
      && v.reservations == w.reservations - {(a.chainId, a.checkpointHash)}
      && (forall b :: b in v.sidecar <==>
            b in w.sidecar && !(cfg.pendingFile && b.chainId == a.chainId && b.transactionHash == a.transactionHash))
  }

  lemma DepthIs(cfg: Config, d: Chain, tx: TxHash)
    requires Sound(d)
    ensures tx in d.receipts ==>
              && DepthOn(d, tx) >= 1
              && Observe(d, tx) == Some(Inclusion(d.receipts[tx].blockNumber, d.receipts[tx].blockHash, DepthOn(d, tx)))
    ensures Decides(cfg, d, tx) <==> Decide(d, tx, cfg.required).Some?
    ensures Decides(cfg, d, tx) ==>
              Decide(d, tx, cfg.required) == Some(if d.receipts[tx].status == Reverted then Failed else Confirmed)
  {
    if tx in d.receipts {
      assert InclusionAgrees(d, tx);
    }
  }

  /** Receipts do not go away, so what the last poll saw is what the last chain shows. */
  lemma {:induction false} PollObserves(cfg: Config, c: Chain, tx: TxHash, attempt: nat, seen: Option<Inclusion>,
                                        mined: Sleeps)
    requires Sound(c) && 1 <= attempt <= cfg.pollAttempts && (seen.Some? ==> tx in c.receipts)
    ensures var (d, verdict) := Poll(cfg, c, tx, attempt, seen, mined);
      Sound(d) && verdict == Verdict(Decide(d, tx, cfg.required), Observe(d, tx))
    decreases cfg.pollAttempts - attempt
  {
    hide Sound, Mine, Decide;
    assert tx !in c.receipts ==> Observe(c, tx) == None;
    if Decide(c, tx, cfg.required).None? && attempt < cfg.pollAttempts {
      MineKeeps(c, mined(attempt));
      PollObserves(cfg, Mine(c, mined(attempt)), tx, attempt + 1,
                   if tx in c.receipts then Observe(c, tx) else seen, mined);
    }
  }

  lemma PollStops(cfg: Config, c: Chain, tx: TxHash, mined: Sleeps)
    requires Sound(c) && cfg.pollAttempts >= 1
    ensures PolledUntil(cfg, c, tx, mined, Poll(cfg, c, tx, 1, None, mined).0)
  {
    hide Sound, Mine, Poll, Decide, ChainAfter, Decides, Extends;
    var n := PollIsFirstDecision(cfg, c, tx, 1, None, mined);
    PollObserves(cfg, c, tx, 1, None, mined);
    var d := Poll(cfg, c, tx, 1, None, mined).0;
    DepthIs(cfg, d, tx);
    forall i: nat | i < n
      ensures !Decides(cfg, ChainAfter(c, 1, i, mined), tx)
    {
      ChainAfterKeeps(c, 1, i, mined);
      DepthIs(cfg, ChainAfter(c, 1, i, mined), tx);
    }
  }

  lemma UpdatedIs(cfg: Config, r: AnchorReceipt, d: Chain, status: ReceiptStatus)
    requires Sound(d)
    ensures Updated(r, d, status, WithInclusion(r, status, Observe(d, r.anchor.transactionHash)))
  {
    DepthIs(cfg, d, r.anchor.transactionHash);
    hide Sound;
  }

  lemma FinalizeMeans(cfg: Config, w: World, d: Chain, r: AnchorReceipt, row: AnchorReceipt)
    requires Decides(cfg, d, r.anchor.transactionHash) && row.anchor == r.anchor
    requires Updated(r, d, if d.receipts[r.anchor.transactionHash].status == Reverted then Failed else Confirmed, row)
    ensures var (v, answer) := Finalize(cfg, w.(chain := d), row);
      v.chain == d && AwaitOutcome(cfg, w, r, v, answer)
  {
    hide FindRowForTx, RemovePending, Updated, Decides;
    FindRowForTxFinds(w.evidence.rows, cfg.chainId, r.anchor.runId, r.anchor.transactionHash);
    RemovePendingIs(w.sidecar, r.anchor.chainId, r.anchor.transactionHash);
  }

  lemma GiveUpMeans(cfg: Config, w: World, d: Chain, r: AnchorReceipt)
    requires Sound(d) && !Decides(cfg, d, r.anchor.transactionHash)
    ensures AwaitOutcome(cfg, w, r, w.(chain := d),
                         Ok(GiveUp(cfg, w.(chain := d), r, Observe(d, r.anchor.transactionHash))))
  {
    hide FindRowForTx, Updated, Decides, Sound, WithInclusion, Observe;
    FindRowForTxFinds(w.evidence.rows, cfg.chainId, r.anchor.runId, r.anchor.transactionHash);
    UpdatedIs(cfg, r, d, Submitted);
  }

  /** The whole effect of waiting, in terms of the chain it ends on. */
  lemma AwaitMeans(cfg: Config, w: World, r: AnchorReceipt, mined: Sleeps)
    requires cfg.pollAttempts >= 1 && Sound(w.chain)
    ensures var (v, answer) := Await(cfg, w, r, mined);
      if cfg.network == BaseMainnet && !(cfg.allowMainnet && cfg.envAllows) then
        v == w && answer == Err(MainnetDisabled)
      else PolledUntil(cfg, w.chain, r.anchor.transactionHash, mined, v.chain) && AwaitOutcome(cfg, w, r, v, answer)
  {
    hide Poll, Finalize, GiveUp, AwaitOutcome, PolledUntil, Decides, Sound, Observe, Decide, WithInclusion, Updated;
    var tx := r.anchor.transactionHash;
    var (d, verdict) := Poll(cfg, w.chain, tx, 1, None, mined);
    PollStops(cfg, w.chain, tx, mined);
    PollObserves(cfg, w.chain, tx, 1, None, mined);
    DepthIs(cfg, d, tx);
    if verdict.final.Some? {
      UpdatedIs(cfg, r, d, verdict.final.value);
      var row := WithInclusion(r, verdict.final.value, verdict.observed);
      assert row.anchor == r.anchor by { AnchorStays(r, verdict.final.value, verdict.observed); }
      FinalizeMeans(cfg, w, d, r, row);
    } else {
      GiveUpMeans(cfg, w, d, r);
    }
  }

  lemma AnchorStays(r: AnchorReceipt, status: ReceiptStatus, observed: Option<Inclusion>)
    ensures WithInclusion(r, status, observed).anchor == r.anchor
  {
  }

  // ---------------------------------------------------------------- bounded confirmation

  /** The chain after the first n sleeps. */
  function ChainAfter(c: Chain, first: nat, n: nat, mined: Sleeps): Chain
  {
    if n == 0 then c else Mine(ChainAfter(c, first, n - 1, mined), mined(first + n - 1))
  }

  /** How many blocks come in n sleeps. */
  function Slept(mined: Sleeps, first: nat, n: nat): nat
  {
    if n == 0 then 0 else Slept(mined, first, n - 1) + mined(first + n - 1)
  }

  lemma {:induction false} ChainAfterShift(c: Chain, first: nat, n: nat, mined: Sleeps)
    ensures ChainAfter(Mine(c, mined(first)), first + 1, n, mined) == ChainAfter(c, first, n + 1, mined)
  {
    hide Mine;
    if n > 0 {
      ChainAfterShift(c, first, n - 1, mined);
    } else {
      assert ChainAfter(c, first, 0, mined) == c;
    }
  }

  /** No poll from the first up to the n-th can decide. */
  ghost predicate Undecided(cfg: Config, c: Chain, tx: TxHash, first: nat, n: nat, mined: Sleeps)
  {
    forall i: nat | i <= n :: Decide(ChainAfter(c, first, i, mined), tx, cfg.required).None?
  }

  lemma UndecidedShift(cfg: Config, c: Chain, tx: TxHash, first: nat, n: nat, mined: Sleeps)
    requires n > 0
    ensures Undecided(cfg, c, tx, first, n, mined)
       <==> Decide(c, tx, cfg.required).None? && Undecided(cfg, Mine(c, mined(first)), tx, first + 1, n - 1, mined)
  {
    hide Decide, Mine;
    var next, second := Mine(c, mined(first)), first + 1;
    assert ChainAfter(c, first, 0, mined) == c;
    if Undecided(cfg, c, tx, first, n, mined) {
      forall i: nat | i <= n - 1
        ensures Decide(ChainAfter(next, second, i, mined), tx, cfg.required).None?
      {
        ChainAfterShift(c, first, i, mined);
      }
    }
    if Decide(c, tx, cfg.required).None? && Undecided(cfg, next, tx, second, n - 1, mined) {
      forall i: nat | i <= n
        ensures Decide(ChainAfter(c, first, i, mined), tx, cfg.required).None?
      {
        if i > 0 {
          ChainAfterShift(c, first, i - 1, mined);
          assert Decide(ChainAfter(next, second, i - 1, mined), tx, cfg.required).None?;
        }
      }
    }
  }

  lemma UndecidedAtOnce(cfg: Config, c: Chain, tx: TxHash, first: nat, mined: Sleeps)
    ensures Undecided(cfg, c, tx, first, 0, mined) <==> Decide(c, tx, cfg.required).None?
  {
    hide Decide;
    assert ChainAfter(c, first, 0, mined) == c;
  }

  /** A poll loop ends with the first poll that decides, and with what that poll sees; it ends without
      a decision, after its last poll, exactly when none of its polls decides. */
  lemma {:induction false} PollIsFirstDecision(cfg: Config, c: Chain, tx: TxHash, attempt: nat,
                                               seen: Option<Inclusion>, mined: Sleeps) returns (n: nat)
    requires 1 <= attempt <= cfg.pollAttempts
    ensures var (d, verdict) := Poll(cfg, c, tx, attempt, seen, mined);
      && n <= cfg.pollAttempts - attempt && d == ChainAfter(c, attempt, n, mined)
      && (verdict.final.Some? ==>
            && verdict.final == Decide(d, tx, cfg.required) && verdict.observed == Observe(d, tx)
            && (n > 0 ==> Undecided(cfg, c, tx, attempt, n - 1, mined)))
      && (verdict.final.None? ==> n == cfg.pollAttempts - attempt)
      && (verdict.final.None? <==> Undecided(cfg, c, tx, attempt, cfg.pollAttempts - attempt, mined))
    decreases cfg.pollAttempts - attempt
  {
    hide Decide, Mine, Observe, Undecided;
    assert ChainAfter(c, attempt, 0, mined) == c;
    UndecidedAtOnce(cfg, c, tx, attempt, mined);
    DecideObserves(c, tx, cfg.required);
    if attempt < cfg.pollAttempts {
      UndecidedShift(cfg, c, tx, attempt, cfg.pollAttempts - attempt, mined);
    }
    if attempt == cfg.pollAttempts || Decide(c, tx, cfg.required).Some? {
      n := 0;
    } else {
      hide ChainAfter;
      var next := Mine(c, mined(attempt));
      var observed := if tx in c.receipts then Observe(c, tx) else seen;
      var more := PollIsFirstDecision(cfg, next, tx, attempt + 1, observed, mined);
      n := more + 1;
      ChainAfterShift(c, attempt, more, mined);
      if more > 0 {
        UndecidedShift(cfg, c, tx, attempt, more, mined);
      }
    }
  }

  lemma DecideObserves(c: Chain, tx: TxHash, required: nat)
    ensures Decide(c, tx, required).Some? ==> tx in c.receipts
  {
  }

  lemma {:induction false} ChainAfterKeeps(c: Chain, first: nat, n: nat, mined: Sleeps)
    requires Sound(c)
    ensures Sound(ChainAfter(c, first, n, mined)) && Extends(c, ChainAfter(c, first, n, mined))
    ensures ChainAfter(c, first, n, mined).sent == c.sent
    ensures ChainAfter(c, first, n, mined).height == c.height + Slept(mined, first, n)
  {
    hide Sound, Mine;
    if n > 0 {
      ChainAfterKeeps(c, first, n - 1, mined);
      MineKeeps(ChainAfter(c, first, n - 1, mined), mined(first + n - 1));
      ExtendsTrans(c, ChainAfter(c, first, n - 1, mined), ChainAfter(c, first, n, mined));
    }
  }

  lemma {:induction false} ChainAfterExtends(c: Chain, first: nat, m: nat, n: nat, mined: Sleeps)
    requires Sound(c) && m <= n
    ensures Extends(ChainAfter(c, first, m, mined), ChainAfter(c, first, n, mined))
    decreases n
  {
    hide Sound, Mine;
    if m < n {
      ChainAfterExtends(c, first, m, n - 1, mined);
      ChainAfterKeeps(c, first, n - 1, mined);
      MineKeeps(ChainAfter(c, first, n - 1, mined), mined(first + n - 1));
      ExtendsTrans(ChainAfter(c, first, m, mined), ChainAfter(c, first, n - 1, mined), ChainAfter(c, first, n, mined));
    }
  }

  /** Blocks keep coming, so depth grows by at least one a sleep. */
  lemma {:induction false} HeadRises(c: Chain, first: nat, m: nat, n: nat, mined: Sleeps)
    requires Sound(c) && m <= n && forall i: nat | first + m <= i < first + n :: mined(i) >= 1
    ensures ChainAfter(c, first, m, mined).height + (n - m) <= ChainAfter(c, first, n, mined).height
    decreases n
  {
    hide Sound, Mine;
    if m < n {
      HeadRises(c, first, m, n - 1, mined);
      ChainAfterKeeps(c, first, n - 1, mined);
      MineKeeps(ChainAfter(c, first, n - 1, mined), mined(first + n - 1));
    }
  }

  /** Bounded confirmation: a transaction that is included and not reverted by poll k, with the head
      rising at least one block a sleep from there on, is confirmed whenever the budget allows
      required - 1 further polls. */
  lemma InclusionLeadsToConfirmation(cfg: Config, c: Chain, tx: TxHash, k: nat, mined: Sleeps)
    requires Sound(c) && cfg.required >= 1 && 1 <= k && k + cfg.required - 1 <= cfg.pollAttempts
    requires tx in ChainAfter(c, 1, k - 1, mined).receipts
    requires ChainAfter(c, 1, k - 1, mined).receipts[tx].status == Success
    requires forall i: nat | k <= i < k + cfg.required - 1 :: mined(i) >= 1
    ensures Poll(cfg, c, tx, 1, None, mined).1.final == Some(Confirmed)
  {
    hide Poll, Mine, ChainAfter, Sound, Extends, Undecided, Observe;
    var n := k - 1 + (cfg.required - 1);
    DeepByThen(cfg, c, tx, k - 1, n, mined);
    var j := PollIsFirstDecision(cfg, c, tx, 1, None, mined);
    var d := Poll(cfg, c, tx, 1, None, mined).0;
    DecidedWithin(cfg, c, tx, n, mined);
    NeverReverted(c, tx, k - 1, j, mined);
    DecideObserves(d, tx, cfg.required);
  }

  lemma DeepByThen(cfg: Config, c: Chain, tx: TxHash, m: nat, n: nat, mined: Sleeps)
    requires Sound(c) && cfg.required >= 1 && n == m + (cfg.required - 1)
    requires tx in ChainAfter(c, 1, m, mined).receipts
    requires ChainAfter(c, 1, m, mined).receipts[tx].status == Success
    requires forall i: nat | 1 + m <= i < 1 + n :: mined(i) >= 1
    ensures Decide(ChainAfter(c, 1, n, mined), tx, cfg.required) == Some(Confirmed)
  {
    hide Mine, ChainAfter, Sound, Extends, Decide;
    ChainAfterKeeps(c, 1, m, mined);
    HeadRises(c, 1, m, n, mined);
    ChainAfterExtends(c, 1, m, n, mined);
    DeepEnough(ChainAfter(c, 1, m, mined), ChainAfter(c, 1, n, mined), tx, cfg.required);
  }

  lemma DecidedWithin(cfg: Config, c: Chain, tx: TxHash, n: nat, mined: Sleeps)
    requires n <= cfg.pollAttempts - 1 && Decide(ChainAfter(c, 1, n, mined), tx, cfg.required).Some?
    ensures !Undecided(cfg, c, tx, 1, cfg.pollAttempts - 1, mined)
  {
    hide Decide, ChainAfter;
  }

  lemma DeepEnough(early: Chain, late: Chain, tx: TxHash, required: nat)
    requires Sound(early) && Extends(early, late) && early.height + (required - 1) <= late.height && required >= 1
    requires tx in early.receipts && early.receipts[tx].status == Success
    ensures Decide(late, tx, required) == Some(Confirmed)
  {
    assert InclusionAgrees(early, tx);
  }

  /** A transaction that succeeds in one state of the chain is never seen reverted in another. */
  lemma NeverReverted(c: Chain, tx: TxHash, m: nat, n: nat, mined: Sleeps)
    requires Sound(c) && tx in ChainAfter(c, 1, m, mined).receipts
    requires ChainAfter(c, 1, m, mined).receipts[tx].status == Success
    ensures tx in ChainAfter(c, 1, n, mined).receipts ==>
              ChainAfter(c, 1, n, mined).receipts[tx].status == Success
  {
    hide Sound;
    if m <= n {
      ChainAfterExtends(c, 1, m, n, mined);
    } else {
      ChainAfterExtends(c, 1, n, m, mined);
    }
  }

  /** The publisher confirms only at the required depth, and only what succeeded. */
  lemma ConfirmedIsDeep(cfg: Config, c: Chain, tx: TxHash, mined: Sleeps)
    requires cfg.pollAttempts >= 1
    ensures var (d, verdict) := Poll(cfg, c, tx, 1, None, mined);
      verdict.final.Some? ==>
        && tx in d.receipts && verdict.observed == Observe(d, tx)
        && (verdict.final.value == Confirmed <==> d.receipts[tx].status == Success)
        && (verdict.final.value == Confirmed ==> verdict.observed.value.confirmations >= cfg.required)
        && verdict.final.value != Submitted
  {
    var polls := PollIsFirstDecision(cfg, c, tx, 1, None, mined);
    var (d, verdict) := Poll(cfg, c, tx, 1, None, mined);
    hide Poll;
    if verdict.final.Some? {
      DecideObserves(d, tx, cfg.required);
    }
  }

  const SAFE_TAG_CONFIRMATION_PROXY: nat := 192
  const DEFAULT_CONFIRMATION_POLL_ATTEMPTS: nat := 240

  /** With the default depth and budget, inclusion by poll 49 suffices. */
  lemma DefaultsConfirmByPoll49(cfg: Config, c: Chain, tx: TxHash, k: nat, mined: Sleeps)
    requires Sound(c) && 1 <= k <= 49
    requires cfg.required == SAFE_TAG_CONFIRMATION_PROXY && cfg.pollAttempts == DEFAULT_CONFIRMATION_POLL_ATTEMPTS
    requires tx in ChainAfter(c, 1, k - 1, mined).receipts
    requires ChainAfter(c, 1, k - 1, mined).receipts[tx].status == Success
    requires forall i: nat | k <= i < cfg.pollAttempts :: mined(i) >= 1
    ensures Poll(cfg, c, tx, 1, None, mined).1.final == Some(Confirmed)
  {
    InclusionLeadsToConfirmation(cfg, c, tx, k, mined);
  }
}
