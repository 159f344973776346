/** Runs of anchoring operations that do not overlap, with the chain moving, faults injected, and the
    process crashing and restarting between operations. */
module AnchorRuns {
  import opened Wrappers
  import opened AnchorChain
  import opened AnchorVerify
  import opened AnchorProtocol

  /** issued holds every receipt an operation has returned; those are what callers can wait for. */
  datatype State = State(world: World, issued: set<AnchorReceipt>)

  datatype Op =
    | SubmitOp(manifest: Manifest, mined: Sleeps)
    | AwaitOp(receipt: AnchorReceipt, mined: Sleeps)
    | MineOp(count: nat)
    | RevertOp(count: nat)
    | DropOp(count: nat)
    | StoreOp(runId: RunId, checkpoint: CheckpointHash)
    | CrashOp

  predicate ValidConfig(cfg: Config)
  {
    cfg.attempts >= 1 && cfg.pollAttempts >= 1 && cfg.required >= 1 && cfg.chainId == ExpectedChainId(cfg.network)
  }

  /** A checkpoint hash covers its run, so no second run can store it. */
  predicate StorableBy(e: Evidence, runId: RunId, c: CheckpointHash)
  {
    forall r <- e.checkpoints :: c in e.checkpoints[r] ==> r == runId
  }

  predicate Enabled(st: State, op: Op)
  {
    match op
    case AwaitOp(r, _) => r in st.issued
    case StoreOp(runId, c) => StorableBy(st.world.evidence, runId, c)
    case _ => true
  }

  function StoreCheckpoint(e: Evidence, runId: RunId, c: CheckpointHash): Evidence
  {
    e.(runs := if runId in e.runs then e.runs else e.runs + [runId],
       checkpoints := e.checkpoints[runId := {c} + if runId in e.checkpoints then e.checkpoints[runId] else {}])
  }

  function Returned(issued: set<AnchorReceipt>, r: Result<AnchorReceipt, Error>): set<AnchorReceipt>
  {
    if r.Ok? then issued + {r.value} else issued
  }

  function Next(cfg: Config, st: State, op: Op): State
    requires ValidConfig(cfg)
  {
    match op
    case SubmitOp(m, mined) =>
      var (w, r) := Submit(cfg, st.world, m, mined);
      State(w, Returned(st.issued, r))
    case AwaitOp(receipt, mined) =>
      var (w, r) := Await(cfg, st.world, receipt, mined);
      State(w, Returned(st.issued, r))
    case MineOp(n) => st.(world := st.world.(chain := Mine(st.world.chain, n)))
    case RevertOp(n) => st.(world := st.world.(chain := st.world.chain.(revertNext := st.world.chain.revertNext + n)))
    case DropOp(n) => st.(world := st.world.(chain := st.world.chain.(dropNext := st.world.chain.dropNext + n)))
    case StoreOp(runId, c) => st.(world := st.world.(evidence := StoreCheckpoint(st.world.evidence, runId, c)))
    case CrashOp => st.(world := st.world.(reservations := map[]))
  }

  function Start(from: Address): State
  {
    State(World(NewChain(from), Evidence([], map[], []), [], map[]), {})
  }

  /** Operations that are not enabled are skipped. */
  function Run(cfg: Config, from: Address, ops: seq<Op>): State
    requires ValidConfig(cfg)
  {
    if ops == [] then Start(from)
    else
      var st := Run(cfg, from, ops[..|ops| - 1]);
      if Enabled(st, ops[|ops| - 1]) then Next(cfg, st, ops[|ops| - 1]) else st
  }

  // ---------------------------------------------------------------- the invariant

  /** The anchor describes a transaction this publisher sent for a checkpoint its run stores. */
  predicate Genuine(cfg: Config, w: World, a: Anchor)
  {
    && a.chainId == cfg.chainId && a.network == cfg.network
    && a.checkpointHash.Sha256? && a.inputData == DigestBytes(a.checkpointHash.digest)
    && Sent(a.transactionHash, a.from, a.to, a.inputData) in w.chain.sent
    && a.runId in w.evidence.checkpoints && a.checkpointHash in w.evidence.checkpoints[a.runId]
  }

  predicate OneRunPerCheckpoint(e: Evidence)
  {
    forall r, q | r in e.checkpoints && q in e.checkpoints :: e.checkpoints[r] * e.checkpoints[q] != {} ==> r == q
  }

  /** At most one transaction was ever sent per checkpoint. */
  predicate SentOnce(c: Chain)
  {
    forall i, j | 0 <= i < j < |c.sent| :: c.sent[i].inputData != c.sent[j].inputData
  }

  predicate HasRow(w: World, tx: TxHash)
  {
    exists r <- w.evidence.rows :: r.anchor.transactionHash == tx
  }

  predicate HasPending(cfg: Config, w: World, tx: TxHash)
  {
    if cfg.pendingFile then exists a <- w.sidecar :: a.transactionHash == tx
    else exists k <- w.reservations :: w.reservations[k].transactionHash == tx
  }

  /** Every sent transaction has a stored row or is still on record as pending. */
  predicate AllCovered(cfg: Config, w: World)
  {
    forall s <- w.chain.sent :: HasRow(w, s.transactionHash) || HasPending(cfg, w, s.transactionHash)
  }

  /** A stored row is a decision the chain bears out. */
  predicate RowTrue(cfg: Config, c: Chain, r: AnchorReceipt)
  {
    && r.anchor.transactionHash in c.receipts
    && var seen := c.receipts[r.anchor.transactionHash];
    && r.blockNumber == Some(seen.blockNumber) && r.blockHash == Some(seen.blockHash)
    && (r.status == Confirmed ==>
          && seen.status == Success && r.confirmations >= cfg.required
          && seen.blockNumber + r.confirmations <= c.height + 1)
    && (r.status != Confirmed ==> r.status == Failed && seen.status == Reverted)
  }

  ghost predicate AllGenuine(cfg: Config, st: State)
  {
    && (forall r <- st.world.evidence.rows :: Genuine(cfg, st.world, r.anchor))
    && (forall a <- st.world.sidecar :: Genuine(cfg, st.world, a))
    && (forall k <- st.world.reservations ::
          Genuine(cfg, st.world, st.world.reservations[k])
          && k == (cfg.chainId, st.world.reservations[k].checkpointHash))
    && (forall r <- st.issued :: Genuine(cfg, st.world, r.anchor))
  }

  ghost predicate Inv(cfg: Config, st: State)
  {
    && Sound(st.world.chain)
    && OneRunPerCheckpoint(st.world.evidence)
    && SentOnce(st.world.chain)
    && AllGenuine(cfg, st)
    && AllCovered(cfg, st.world)
    && (forall r <- st.world.evidence.rows :: RowTrue(cfg, st.world.chain, r))
  }

  // ---------------------------------------------------------------- uniqueness

  /** A transaction hash belongs to one send. */
  lemma SentByHash(c: Chain, s: Sent, t: Sent)
    requires Sound(c) && s in c.sent && t in c.sent && s.transactionHash == t.transactionHash
    ensures s == t
  {
    var i :| 0 <= i < |c.sent| && c.sent[i] == s;
    var j :| 0 <= j < |c.sent| && c.sent[j] == t;
    assert c.sent[i].transactionHash == FakeTx(i + 1, s.inputData);
    assert c.sent[j].transactionHash == FakeTx(j + 1, t.inputData);
  }

  lemma SentByInput(c: Chain, s: Sent, t: Sent)
    requires SentOnce(c) && s in c.sent && t in c.sent && s.inputData == t.inputData
    ensures s == t
  {
    var i :| 0 <= i < |c.sent| && c.sent[i] == s;
    var j :| 0 <= j < |c.sent| && c.sent[j] == t;
  }

  function SentOf(a: Anchor): Sent
  {
    Sent(a.transactionHash, a.from, a.to, a.inputData)
  }

  /** Two genuine anchors have the same transaction exactly when they have the same checkpoint. */
  lemma GenuinePair(cfg: Config, w: World, a: Anchor, b: Anchor)
    requires Sound(w.chain) && SentOnce(w.chain) && OneRunPerCheckpoint(w.evidence)
    requires Genuine(cfg, w, a) && Genuine(cfg, w, b)
    ensures a.transactionHash == b.transactionHash <==> a.checkpointHash == b.checkpointHash
    ensures a.checkpointHash == b.checkpointHash ==> a.runId == b.runId
  {
    if a.transactionHash == b.transactionHash {
      SentByHash(w.chain, SentOf(a), SentOf(b));
    }
    if a.checkpointHash == b.checkpointHash {
      SentByInput(w.chain, SentOf(a), SentOf(b));
      assert a.checkpointHash in w.evidence.checkpoints[a.runId] * w.evidence.checkpoints[b.runId];
    }
  }

  /** If submit finds nothing on record for a checkpoint, nothing was ever sent for it. */
  lemma NothingSentYet(cfg: Config, st: State, runId: RunId, c: CheckpointHash)
    requires Inv(cfg, st) && c.Sha256?
    requires runId in st.world.evidence.checkpoints && c in st.world.evidence.checkpoints[runId]
    requires FindRow(st.world.evidence.rows, cfg.chainId, runId, c).None? && Reserved(cfg, st.world, c).None?
    ensures forall s <- st.world.chain.sent :: s.inputData != DigestBytes(c.digest)
  {
    var w := st.world;
    FindRowFinds(w.evidence.rows, cfg.chainId, runId, c);
    FindPendingFinds(PendingSubmissions(cfg, w), cfg.chainId, c);
    forall s <- w.chain.sent
      ensures s.inputData != DigestBytes(c.digest)
    {
      if s.inputData == DigestBytes(c.digest) {
        if HasRow(w, s.transactionHash) {
          var r :| r in w.evidence.rows && r.anchor.transactionHash == s.transactionHash;
          RecordNamesCheckpoint(cfg, w, r.anchor, s, runId, c);
          assert false;
        } else if cfg.pendingFile {
          var a :| a in w.sidecar && a.transactionHash == s.transactionHash;
          RecordNamesCheckpoint(cfg, w, a, s, runId, c);
          assert false;
        } else {
          var k :| k in w.reservations && w.reservations[k].transactionHash == s.transactionHash;
          RecordNamesCheckpoint(cfg, w, w.reservations[k], s, runId, c);
          assert false;
        }
      }
    }
  }

  lemma RecordNamesCheckpoint(cfg: Config, w: World, a: Anchor, s: Sent, runId: RunId, c: CheckpointHash)
    requires Sound(w.chain) && OneRunPerCheckpoint(w.evidence) && Genuine(cfg, w, a) && s in w.chain.sent
    requires a.transactionHash == s.transactionHash && c.Sha256? && s.inputData == DigestBytes(c.digest)
    requires runId in w.evidence.checkpoints && c in w.evidence.checkpoints[runId]
    ensures a.checkpointHash == c && a.runId == runId && a.chainId == cfg.chainId
  {
    SentByHash(w.chain, SentOf(a), s);
    assert c in w.evidence.checkpoints[a.runId] * w.evidence.checkpoints[runId];
  }

  // ---------------------------------------------------------------- preservation

  /** The chain may move on under everything else. */
  lemma ChainMoveKeeps(cfg: Config, st: State, d: Chain)
    requires Inv(cfg, st) && Sound(d) && Extends(st.world.chain, d) && d.sent == st.world.chain.sent
    ensures Inv(cfg, st.(world := st.world.(chain := d)))
  {
    var w := st.world.(chain := d);
    hide Sound;
    forall s <- d.sent
      ensures HasRow(w, s.transactionHash) || HasPending(cfg, w, s.transactionHash)
    {
      assert HasRow(st.world, s.transactionHash) || HasPending(cfg, st.world, s.transactionHash);
    }
    forall r <- w.evidence.rows
      ensures RowTrue(cfg, d, r)
    {
      assert RowTrue(cfg, st.world.chain, r);
    }
    GenuineSurvives(cfg, st, st.(world := w));
  }

  /** Genuineness only asks for sends and stored checkpoints, and those are never taken back. */
  lemma GenuineSurvives(cfg: Config, st: State, next: State)
    requires AllGenuine(cfg, st)
    requires next.world.evidence.rows == st.world.evidence.rows && next.world.sidecar == st.world.sidecar
    requires next.world.reservations == st.world.reservations && next.issued == st.issued
    requires st.world.chain.sent <= next.world.chain.sent
    requires forall r <- st.world.evidence.checkpoints ::
               r in next.world.evidence.checkpoints
               && st.world.evidence.checkpoints[r] <= next.world.evidence.checkpoints[r]
    ensures AllGenuine(cfg, next)
  {
    forall a: Anchor | Genuine(cfg, st.world, a)
      ensures Genuine(cfg, next.world, a)
    {
    }
  }

  lemma StoreKeeps(cfg: Config, st: State, runId: RunId, c: CheckpointHash)
    requires Inv(cfg, st) && StorableBy(st.world.evidence, runId, c)
    ensures Inv(cfg, st.(world := st.world.(evidence := StoreCheckpoint(st.world.evidence, runId, c))))
  {
    var e := StoreCheckpoint(st.world.evidence, runId, c);
    var w := st.world.(evidence := e);
    hide Sound, Genuine;
    OneRunKept(st.world.evidence, runId, c);
    GenuineSurvives(cfg, st, st.(world := w));
    forall s <- w.chain.sent
      ensures HasRow(w, s.transactionHash) || HasPending(cfg, w, s.transactionHash)
    {
      assert HasRow(st.world, s.transactionHash) || HasPending(cfg, st.world, s.transactionHash);
    }
  }

  lemma OneRunKept(e: Evidence, runId: RunId, c: CheckpointHash)
    requires OneRunPerCheckpoint(e) && StorableBy(e, runId, c)
    ensures OneRunPerCheckpoint(StoreCheckpoint(e, runId, c))
  {
    var f := StoreCheckpoint(e, runId, c).checkpoints;
    forall r, q | r in f && q in f && f[r] * f[q] != {}
      ensures r == q
    {
      var x :| x in f[r] * f[q];
      if x != c {
        assert x in e.checkpoints[r] * e.checkpoints[q];
      }
    }
  }

  /** With a sidecar, a crash loses nothing that matters. */
  lemma CrashKeeps(cfg: Config, st: State)
    requires Inv(cfg, st) && cfg.pendingFile
    ensures Inv(cfg, st.(world := st.world.(reservations := map[])))
  {
    hide Sound, AllGenuine, AllCovered, RowTrue, Genuine;
    var w := st.world.(reservations := map[]);
    CrashGenuine(cfg, st);
    CrashCovered(cfg, st.world);
  }

  lemma CrashGenuine(cfg: Config, st: State)
    requires AllGenuine(cfg, st)
    ensures AllGenuine(cfg, st.(world := st.world.(reservations := map[])))
  {
    var w := st.world.(reservations := map[]);
    forall a: Anchor
      ensures Genuine(cfg, st.world, a) ==> Genuine(cfg, w, a)
    {
    }
    hide Genuine;
  }

  lemma CrashCovered(cfg: Config, w: World)
    requires AllCovered(cfg, w) && cfg.pendingFile
    ensures AllCovered(cfg, w.(reservations := map[]))
  {
    forall s <- w.chain.sent
      ensures HasPending(cfg, w, s.transactionHash) ==>
                HasPending(cfg, w.(reservations := map[]), s.transactionHash)
    {
    }
    hide HasPending;
  }

  /** A returned receipt joins the issued ones. */
  lemma IssueKeeps(cfg: Config, st: State, r: AnchorReceipt)
    requires Inv(cfg, st) && Genuine(cfg, st.world, r.anchor)
    ensures Inv(cfg, st.(issued := st.issued + {r}))
  {
    hide Sound, Genuine;
  }

  /** Retrying sends at most one transaction, for this checkpoint, in an otherwise unchanged history. */
  lemma {:induction false} RetryKeeps(cfg: Config, c: Chain, h: CheckpointHash, attempt: nat, mined: Sleeps)
    requires Sound(c) && 1 <= attempt <= cfg.attempts
    ensures var (d, r) := SendWithRetry(cfg, c, h, attempt, mined);
      && Sound(d) && Extends(c, d)
      && d.sent == c.sent + (if r.Some? then [r.value] else [])
      && (r.Some? ==> h.Sha256? && r.value.inputData == DigestBytes(h.digest) && r.value.to == cfg.anchorAddress)
    decreases cfg.attempts - attempt
  {
    hide Sound, Extends, Send, Mine;
    SendKeeps(c, h, cfg.anchorAddress);
    var (d, r) := Send(c, h, cfg.anchorAddress);
    if r.None? && attempt < cfg.attempts {
      MineKeeps(d, mined(attempt));
      RetryKeeps(cfg, Mine(d, mined(attempt)), h, attempt + 1, mined);
      var last := SendWithRetry(cfg, Mine(d, mined(attempt)), h, attempt + 1, mined).0;
      ExtendsTrans(c, d, Mine(d, mined(attempt)));
      ExtendsTrans(c, Mine(d, mined(attempt)), last);
    }
  }

  /** A send for a checkpoint nothing was sent for, recorded at once. */
  lemma ReserveKeeps(cfg: Config, st: State, runId: RunId, m: Manifest, d: Chain, s: Sent)
    requires Inv(cfg, st) && Sound(d) && Extends(st.world.chain, d) && d.sent == st.world.chain.sent + [s]
    requires m.checkpointHash.Sha256? && s.inputData == DigestBytes(m.checkpointHash.digest)
    requires runId in st.world.evidence.checkpoints && m.checkpointHash in st.world.evidence.checkpoints[runId]
    requires forall t <- st.world.chain.sent :: t.inputData != DigestBytes(m.checkpointHash.digest)
    ensures var a := Submission(cfg, runId, m, s);
      var w := Reserve(cfg, st.world.(chain := d), a);
      Genuine(cfg, w, a) && Inv(cfg, st.(world := w))
  {
    var a := Submission(cfg, runId, m, s);
    var w := Reserve(cfg, st.world.(chain := d), a);
    NewHash(d, s);
    assert d.sent[..|d.sent| - 1] == st.world.chain.sent;
    CoveredAfterReserve(cfg, st, d, s, a);
    GenuineAfterReserve(cfg, st, d, s, a);
    OnceMore(st.world.chain, d, s);
    RowsStayTrue(cfg, st.world.chain, d, st.world.evidence.rows);
    hide Sound, Extends, Genuine, AllGenuine, AllCovered, SentOnce, RowTrue;
  }

  lemma OnceMore(c: Chain, d: Chain, s: Sent)
    requires SentOnce(c) && d.sent == c.sent + [s] && forall t <- c.sent :: t.inputData != s.inputData
    ensures SentOnce(d)
  {
  }

  lemma RowsStayTrue(cfg: Config, c: Chain, d: Chain, rows: seq<AnchorReceipt>)
    requires Extends(c, d) && forall r <- rows :: RowTrue(cfg, c, r)
    ensures forall r <- rows :: RowTrue(cfg, d, r)
  {
    forall r <- rows
      ensures RowTrue(cfg, d, r)
    {
      assert RowTrue(cfg, c, r);
    }
  }

  lemma GenuineAfterReserve(cfg: Config, st: State, d: Chain, s: Sent, a: Anchor)
    requires AllGenuine(cfg, st) && d.sent == st.world.chain.sent + [s]
    requires Genuine(cfg, st.world.(chain := d), a)
    ensures AllGenuine(cfg, st.(world := Reserve(cfg, st.world.(chain := d), a)))
  {
    var w := Reserve(cfg, st.world.(chain := d), a);
    RemovePendingIs(st.world.sidecar, a.chainId, a.transactionHash);
    forall b: Anchor | Genuine(cfg, st.world, b)
      ensures Genuine(cfg, w, b)
    {
    }
    assert Genuine(cfg, w, a);
  }

  lemma NewHash(d: Chain, s: Sent)
    requires Sound(d) && d.sent != [] && d.sent[|d.sent| - 1] == s
    ensures forall t <- d.sent[..|d.sent| - 1] :: t.transactionHash != s.transactionHash
  {
    forall t <- d.sent[..|d.sent| - 1]
      ensures t.transactionHash != s.transactionHash
    {
      var i :| 0 <= i < |d.sent| - 1 && d.sent[i] == t;
      assert d.sent[i].transactionHash == FakeTx(i + 1, t.inputData);
      assert d.sent[|d.sent| - 1].transactionHash == FakeTx(|d.sent|, s.inputData);
    }
  }

  lemma CoveredAfterReserve(cfg: Config, st: State, d: Chain, s: Sent, a: Anchor)
    requires AllCovered(cfg, st.world) && AllGenuine(cfg, st) && d.sent == st.world.chain.sent + [s]
    requires a.transactionHash == s.transactionHash && a.chainId == cfg.chainId && a.checkpointHash.Sha256?
    requires forall t <- st.world.chain.sent :: t.transactionHash != s.transactionHash
    requires forall t <- st.world.chain.sent :: t.inputData != DigestBytes(a.checkpointHash.digest)
    ensures AllCovered(cfg, Reserve(cfg, st.world.(chain := d), a))
  {
    var w := Reserve(cfg, st.world.(chain := d), a);
    RemovePendingIs(st.world.sidecar, a.chainId, a.transactionHash);
    forall t <- d.sent
      ensures HasRow(w, t.transactionHash) || HasPending(cfg, w, t.transactionHash)
    {
      if t == s {
        PendingAfterReserve(cfg, st.world.(chain := d), a);
      } else {
        assert t in st.world.chain.sent;
        if HasRow(st.world, t.transactionHash) {
          assert HasRow(w, t.transactionHash);
        } else if cfg.pendingFile {
          var p :| p in st.world.sidecar && p.transactionHash == t.transactionHash;
          assert p in w.sidecar;
        } else {
          var k :| k in st.world.reservations && st.world.reservations[k].transactionHash == t.transactionHash;
          assert Genuine(cfg, st.world, st.world.reservations[k]);
          assert k != (cfg.chainId, a.checkpointHash);
          assert w.reservations[k].transactionHash == t.transactionHash;
        }
      }
    }
  }

  lemma PendingAfterReserve(cfg: Config, w: World, a: Anchor)
    ensures HasPending(cfg, Reserve(cfg, w, a), a.transactionHash)
  {
    var v := Reserve(cfg, w, a);
    if cfg.pendingFile {
      assert a in v.sidecar;
    } else {
      assert v.reservations[(cfg.chainId, a.checkpointHash)] == a;
    }
  }

  lemma SubmitKeeps(cfg: Config, st: State, m: Manifest, mined: Sleeps)
    requires ValidConfig(cfg) && Inv(cfg, st)
    ensures Inv(cfg, Next(cfg, st, SubmitOp(m, mined)))
  {
    hide Inv, Genuine, SendWithRetry;
    var (w, r) := Submit(cfg, st.world, m, mined);
    if r.Ok? {
      SubmitReturnsGenuine(cfg, st, m, mined);
      IssueKeeps(cfg, st.(world := w), r.value);
      assert Next(cfg, st, SubmitOp(m, mined)) == st.(world := w, issued := st.issued + {r.value});
    } else {
      FailedSubmitKeeps(cfg, st, m, mined);
      assert Next(cfg, st, SubmitOp(m, mined)) == st.(world := w);
    }
  }

  /** A submission that fails changes at most the chain, by sends that did not succeed. */
  lemma FailedSubmitIs(cfg: Config, w: World, m: Manifest, mined: Sleeps)
    requires cfg.attempts >= 1 && Submit(cfg, w, m, mined).1.Err?
    ensures var v := Submit(cfg, w, m, mined).0; var (d, r) := SendWithRetry(cfg, w.chain, m.checkpointHash, 1, mined);
      v == w || (v == w.(chain := d) && r.None?)
  {
    hide SendWithRetry, FindRow, Reserved, Reserve;
  }

  lemma FailedSubmitKeeps(cfg: Config, st: State, m: Manifest, mined: Sleeps)
    requires ValidConfig(cfg) && Inv(cfg, st) && Submit(cfg, st.world, m, mined).1.Err?
    ensures Inv(cfg, st.(world := Submit(cfg, st.world, m, mined).0))
  {
    hide Inv, SendWithRetry, Submit, Sound, Extends;
    FailedSubmitIs(cfg, st.world, m, mined);
    InvIsSound(cfg, st);
    RetryKeeps(cfg, st.world.chain, m.checkpointHash, 1, mined);
    var (d, r) := SendWithRetry(cfg, st.world.chain, m.checkpointHash, 1, mined);
    var w := Submit(cfg, st.world, m, mined).0;
    if w == st.world {
      assert st.(world := w) == st;
    } else {
      assert d.sent == st.world.chain.sent + [] == st.world.chain.sent;
      ChainMoveKeeps(cfg, st, d);
    }
  }

  /** Whichever way submit succeeds, the receipt is genuine and the invariant holds. */
  lemma SubmitReturnsGenuine(cfg: Config, st: State, m: Manifest, mined: Sleeps)
    requires ValidConfig(cfg) && Inv(cfg, st) && Submit(cfg, st.world, m, mined).1.Ok?
    ensures var (w, r) := Submit(cfg, st.world, m, mined);
      Inv(cfg, st.(world := w)) && Genuine(cfg, w, r.value.anchor)
  {
    hide FindRow, FindPending, SendWithRetry, Extends, RowTrue;
    var runId := m.runIdHash.runId;
    var existing := FindRow(st.world.evidence.rows, cfg.chainId, runId, m.checkpointHash);
    var reserved := Reserved(cfg, st.world, m.checkpointHash);
    if existing.Some? {
      FindRowFinds(st.world.evidence.rows, cfg.chainId, runId, m.checkpointHash);
    } else if reserved.Some? {
      FindPendingFinds(PendingSubmissions(cfg, st.world), cfg.chainId, m.checkpointHash);
    } else {
      NothingSentYetFor(cfg, st, runId, m);
      RetryKeeps(cfg, st.world.chain, m.checkpointHash, 1, mined);
      hide Genuine, Sound;
      var (d, s) := SendWithRetry(cfg, st.world.chain, m.checkpointHash, 1, mined);
      ReserveKeeps(cfg, st, runId, m, d, s.value);
    }
  }

  lemma NothingSentYetFor(cfg: Config, st: State, runId: RunId, m: Manifest)
    requires Inv(cfg, st) && AnchorInputData(m.checkpointHash).Some?
    requires runId in st.world.evidence.checkpoints && m.checkpointHash in st.world.evidence.checkpoints[runId]
    requires FindRow(st.world.evidence.rows, cfg.chainId, runId, m.checkpointHash).None?
    requires Reserved(cfg, st.world, m.checkpointHash).None?
    ensures m.checkpointHash.Sha256?
    ensures forall s <- st.world.chain.sent :: s.inputData != DigestBytes(m.checkpointHash.digest)
  {
    NothingSentYet(cfg, st, runId, m.checkpointHash);
  }

  /** Polling moves the chain and nothing else. */
  lemma PollKeeps(cfg: Config, c: Chain, tx: TxHash, mined: Sleeps)
    requires Sound(c) && cfg.pollAttempts >= 1
    ensures var d := Poll(cfg, c, tx, 1, None, mined).0;
      Sound(d) && Extends(c, d) && d.sent == c.sent
  {
    hide Sound, Extends, Poll, ChainAfter, Undecided;
    var n := PollIsFirstDecision(cfg, c, tx, 1, None, mined);
    ChainAfterKeeps(c, 1, n, mined);
  }

  /** A decision, once its inclusion is filled in, is a true row. */
  lemma DecisionIsTrue(cfg: Config, c: Chain, r: AnchorReceipt, mined: Sleeps)
    requires Sound(c) && ValidConfig(cfg)
    ensures var (d, verdict) := Poll(cfg, c, r.anchor.transactionHash, 1, None, mined);
      verdict.final.Some? ==> RowTrue(cfg, d, WithInclusion(r, verdict.final.value, verdict.observed))
  {
    var (d, verdict) := Poll(cfg, c, r.anchor.transactionHash, 1, None, mined);
    ConfirmedIsDeep(cfg, c, r.anchor.transactionHash, mined);
    PollKeeps(cfg, c, r.anchor.transactionHash, mined);
    hide Poll;
    if verdict.final.Some? {
      assert InclusionAgrees(d, r.anchor.transactionHash);
    }
  }

  /** Writing the row of an issued receipt and only then clearing its pending records. */
  lemma FinalizeKeeps(cfg: Config, st: State, r: AnchorReceipt)
    requires Inv(cfg, st) && Genuine(cfg, st.world, r.anchor) && RowTrue(cfg, st.world.chain, r)
    ensures var (w, result) := Finalize(cfg, st.world, r);
      Inv(cfg, st.(world := w)) && (result.Ok? ==> Genuine(cfg, w, result.value.anchor))
  {
    var (w, result) := Finalize(cfg, st.world, r);
    FindRowForTxFinds(st.world.evidence.rows, cfg.chainId, r.anchor.runId, r.anchor.transactionHash);
    if w != st.world {
      GenuineAfterRow(cfg, st, r);
      CoveredAfterRow(cfg, st, r);
      hide Sound, AllGenuine, AllCovered, SentOnce, OneRunPerCheckpoint;
    }
  }

  lemma GenuineAfterRow(cfg: Config, st: State, r: AnchorReceipt)
    requires AllGenuine(cfg, st) && Genuine(cfg, st.world, r.anchor)
    ensures var w := Finalize(cfg, st.world, r).0;
      AllGenuine(cfg, st.(world := w)) && Genuine(cfg, w, r.anchor)
  {
    var w := Finalize(cfg, st.world, r).0;
    RemovePendingIs(st.world.sidecar, r.anchor.chainId, r.anchor.transactionHash);
    forall b: Anchor | Genuine(cfg, st.world, b)
      ensures Genuine(cfg, w, b)
    {
    }
  }

  lemma CoveredAfterRow(cfg: Config, st: State, r: AnchorReceipt)
    requires Inv(cfg, st) && Genuine(cfg, st.world, r.anchor)
    ensures AllCovered(cfg, Finalize(cfg, st.world, r).0)
  {
    var w := Finalize(cfg, st.world, r).0;
    if w != st.world {
      RemovePendingIs(st.world.sidecar, r.anchor.chainId, r.anchor.transactionHash);
      assert r in w.evidence.rows;
      forall s <- w.chain.sent
        ensures HasRow(w, s.transactionHash) || HasPending(cfg, w, s.transactionHash)
      {
        if s.transactionHash != r.anchor.transactionHash {
          StillOnRecord(cfg, st, r, s.transactionHash);
        }
      }
    }
  }

  lemma StillOnRecord(cfg: Config, st: State, r: AnchorReceipt, tx: TxHash)
    requires Inv(cfg, st) && Genuine(cfg, st.world, r.anchor) && tx != r.anchor.transactionHash
    requires HasRow(st.world, tx) || HasPending(cfg, st.world, tx)
    ensures HasRow(Finalize(cfg, st.world, r).0, tx) || HasPending(cfg, Finalize(cfg, st.world, r).0, tx)
  {
    hide Inv, Genuine, HasRow, HasPending, Finalize;
    if HasRow(st.world, tx) {
      RowStays(cfg, st.world, r, tx);
    } else if cfg.pendingFile {
      EntryStays(cfg, st.world, r, tx);
    } else {
      ReservationStays(cfg, st, r, tx);
    }
  }

  lemma RowStays(cfg: Config, w: World, r: AnchorReceipt, tx: TxHash)
    requires HasRow(w, tx)
    ensures HasRow(Finalize(cfg, w, r).0, tx)
  {
    hide FindRowForTx, KeyTaken, RemovePending;
    var q :| q in w.evidence.rows && q.anchor.transactionHash == tx;
    assert q in Finalize(cfg, w, r).0.evidence.rows;
  }

  lemma EntryStays(cfg: Config, w: World, r: AnchorReceipt, tx: TxHash)
    requires cfg.pendingFile && HasPending(cfg, w, tx) && tx != r.anchor.transactionHash
    ensures HasPending(cfg, Finalize(cfg, w, r).0, tx)
  {
    hide FindRowForTx, KeyTaken, RemovePending;
    RemovePendingIs(w.sidecar, r.anchor.chainId, r.anchor.transactionHash);
    var a :| a in w.sidecar && a.transactionHash == tx;
    assert a in Finalize(cfg, w, r).0.sidecar;
  }

  lemma ReservedUnder(cfg: Config, st: State, r: AnchorReceipt, tx: TxHash) returns (k: (int, CheckpointHash))
    requires Inv(cfg, st) && Genuine(cfg, st.world, r.anchor) && tx != r.anchor.transactionHash
    requires !cfg.pendingFile && HasPending(cfg, st.world, tx)
    ensures k in st.world.reservations && st.world.reservations[k].transactionHash == tx
    ensures k != (r.anchor.chainId, r.anchor.checkpointHash)
  {
    k :| k in st.world.reservations && st.world.reservations[k].transactionHash == tx;
    GenuinePair(cfg, st.world, st.world.reservations[k], r.anchor);
  }

  lemma ReservationStays(cfg: Config, st: State, r: AnchorReceipt, tx: TxHash)
    requires Inv(cfg, st) && Genuine(cfg, st.world, r.anchor) && tx != r.anchor.transactionHash
    requires !cfg.pendingFile && HasPending(cfg, st.world, tx)
    ensures HasPending(cfg, Finalize(cfg, st.world, r).0, tx)
  {
    var k := ReservedUnder(cfg, st, r, tx);
    hide Inv, Genuine, HasRow;
    var w := Finalize(cfg, st.world, r).0;
    assert k in w.reservations && w.reservations[k].transactionHash == tx;
  }

  lemma AwaitCases(cfg: Config, st: State, r: AnchorReceipt, mined: Sleeps)
    requires ValidConfig(cfg)
    ensures var (c, verdict) := Poll(cfg, st.world.chain, r.anchor.transactionHash, 1, None, mined);
      var polled := st.(world := st.world.(chain := c));
      Next(cfg, st, AwaitOp(r, mined))
      == if !NetworkAllowed(cfg) then st
         else if verdict.final.Some? then Settled(cfg, polled, WithInclusion(r, verdict.final.value, verdict.observed))
         else State(polled.world, st.issued + {GiveUp(cfg, polled.world, r, verdict.observed)})
  {
    hide Poll, Finalize, WithInclusion, GiveUp;
  }

  /** After finalizing a row: its answer, when there is one, joins the issued receipts. */
  function Settled(cfg: Config, st: State, row: AnchorReceipt): State
  {
    var (w, result) := Finalize(cfg, st.world, row);
    State(w, if result.Ok? then st.issued + {result.value} else st.issued)
  }

  lemma AwaitKeeps(cfg: Config, st: State, r: AnchorReceipt, mined: Sleeps)
    requires ValidConfig(cfg) && Inv(cfg, st) && r in st.issued
    ensures Inv(cfg, Next(cfg, st, AwaitOp(r, mined)))
  {
    hide Inv, Next, Poll, Sound, Extends, RowTrue, Finalize, Genuine, Settled, WithInclusion, GiveUp;
    AwaitCases(cfg, st, r, mined);
    if NetworkAllowed(cfg) {
      var (c, verdict) := Poll(cfg, st.world.chain, r.anchor.transactionHash, 1, None, mined);
      var polled := st.(world := st.world.(chain := c));
      InvIsSound(cfg, st);
      IssuedIsGenuine(cfg, st, r);
      PolledKeeps(cfg, st, r, mined);
      DecisionIsTrue(cfg, st.world.chain, r, mined);
      if verdict.final.Some? {
        var row := WithInclusion(r, verdict.final.value, verdict.observed);
        assert row.anchor == r.anchor by { AnchorStays(r, verdict.final.value, verdict.observed); }
        SettleKeeps(cfg, polled, row);
      } else {
        GiveUpIsGenuine(cfg, polled, r, verdict.observed);
        IssueKeeps(cfg, polled, GiveUp(cfg, polled.world, r, verdict.observed));
      }
    }
  }

  lemma PolledKeeps(cfg: Config, st: State, r: AnchorReceipt, mined: Sleeps)
    requires ValidConfig(cfg) && Inv(cfg, st) && Genuine(cfg, st.world, r.anchor)
    ensures var d := Poll(cfg, st.world.chain, r.anchor.transactionHash, 1, None, mined).0;
      && Inv(cfg, st.(world := st.world.(chain := d)))
      && Genuine(cfg, st.world.(chain := d), r.anchor)
  {
    InvIsSound(cfg, st);
    PollKeeps(cfg, st.world.chain, r.anchor.transactionHash, mined);
    var d := Poll(cfg, st.world.chain, r.anchor.transactionHash, 1, None, mined).0;
    hide Inv, Poll, Sound, Extends;
    ChainMoveKeeps(cfg, st, d);
  }

  /** Finalizing a decided row keeps the invariant, with its answer among the issued receipts. */
  lemma SettleKeeps(cfg: Config, st: State, row: AnchorReceipt)
    requires Inv(cfg, st) && Genuine(cfg, st.world, row.anchor) && RowTrue(cfg, st.world.chain, row)
    ensures Inv(cfg, Settled(cfg, st, row))
  {
    hide Inv, Finalize, Genuine, RowTrue;
    FinalizeKeeps(cfg, st, row);
    var (w, result) := Finalize(cfg, st.world, row);
    if result.Ok? {
      IssueKeeps(cfg, st.(world := w), result.value);
    }
  }

  lemma IssuedIsGenuine(cfg: Config, st: State, r: AnchorReceipt)
    requires Inv(cfg, st) && r in st.issued
    ensures Genuine(cfg, st.world, r.anchor)
  {
  }

  lemma GiveUpIsGenuine(cfg: Config, st: State, r: AnchorReceipt, observed: Option<Inclusion>)
    requires Inv(cfg, st) && Genuine(cfg, st.world, r.anchor)
    ensures Genuine(cfg, st.world, GiveUp(cfg, st.world, r, observed).anchor)
  {
    FindRowForTxFinds(st.world.evidence.rows, cfg.chainId, r.anchor.runId, r.anchor.transactionHash);
  }

  function MovedChain(c: Chain, op: Op): Chain
    requires op.MineOp? || op.RevertOp? || op.DropOp?
  {
    match op
    case MineOp(n) => Mine(c, n)
    case RevertOp(n) => c.(revertNext := c.revertNext + n)
    case DropOp(n) => c.(dropNext := c.dropNext + n)
  }

  lemma MovedChainKeeps(c: Chain, op: Op)
    requires Sound(c) && (op.MineOp? || op.RevertOp? || op.DropOp?)
    ensures Sound(MovedChain(c, op)) && Extends(c, MovedChain(c, op)) && MovedChain(c, op).sent == c.sent
  {
    hide Mine;
    match op
    case MineOp(n) => MineKeeps(c, n);
    case RevertOp(n) =>
    case DropOp(n) =>
  }

  lemma ChainOpIs(cfg: Config, st: State, op: Op)
    requires ValidConfig(cfg) && (op.MineOp? || op.RevertOp? || op.DropOp?)
    ensures Next(cfg, st, op) == st.(world := st.world.(chain := MovedChain(st.world.chain, op)))
  {
    hide Submit, Await, Mine;
  }

  lemma ChainOpKeeps(cfg: Config, st: State, op: Op)
    requires ValidConfig(cfg) && Inv(cfg, st) && (op.MineOp? || op.RevertOp? || op.DropOp?)
    ensures Inv(cfg, Next(cfg, st, op))
  {
    InvIsSound(cfg, st);
    hide Inv, Sound, Extends, Next, MovedChain;
    MovedChainKeeps(st.world.chain, op);
    ChainOpIs(cfg, st, op);
    ChainMoveKeeps(cfg, st, MovedChain(st.world.chain, op));
  }

  lemma StoreOrCrashKeeps(cfg: Config, st: State, op: Op)
    requires ValidConfig(cfg) && Inv(cfg, st) && Enabled(st, op)
    requires op.StoreOp? || (op.CrashOp? && cfg.pendingFile)
    ensures Inv(cfg, Next(cfg, st, op))
  {
    hide Inv, Submit, Await, StoreCheckpoint;
    if op.StoreOp? {
      StoreKeeps(cfg, st, op.runId, op.checkpoint);
    } else {
      CrashKeeps(cfg, st);
    }
  }

  lemma NextKeeps(cfg: Config, st: State, op: Op)
    requires ValidConfig(cfg) && Inv(cfg, st) && Enabled(st, op) && (op.CrashOp? ==> cfg.pendingFile)
    ensures Inv(cfg, Next(cfg, st, op))
  {
    hide Inv, Next, StorableBy;
    match op
    case SubmitOp(m, mined) => SubmitKeeps(cfg, st, m, mined);
    case AwaitOp(r, mined) => AwaitKeeps(cfg, st, r, mined);
    case MineOp(_) => ChainOpKeeps(cfg, st, op);
    case RevertOp(_) => ChainOpKeeps(cfg, st, op);
    case DropOp(_) => ChainOpKeeps(cfg, st, op);
    case StoreOp(_, _) => StoreOrCrashKeeps(cfg, st, op);
    case CrashOp => StoreOrCrashKeeps(cfg, st, op);
  }

  lemma InvIsSound(cfg: Config, st: State)
    requires Inv(cfg, st)
    ensures Sound(st.world.chain)
  {
  }

  /** The invariant holds after every run in which only a publisher with a sidecar crashes. */
  lemma {:induction false} RunKeeps(cfg: Config, from: Address, ops: seq<Op>)
    requires ValidConfig(cfg) && (cfg.pendingFile || forall i | 0 <= i < |ops| :: !ops[i].CrashOp?)
    ensures Inv(cfg, Run(cfg, from, ops))
  {
    hide Inv, Next;
    if ops == [] {
      StartKeeps(cfg, from);
    } else {
      var n := |ops| - 1;
      RunKeeps(cfg, from, ops[..n]);
      if Enabled(Run(cfg, from, ops[..n]), ops[n]) {
        NextKeeps(cfg, Run(cfg, from, ops[..n]), ops[n]);
      }
    }
  }

  lemma StartKeeps(cfg: Config, from: Address)
    ensures Inv(cfg, Start(from))
  {
  }

  // ---------------------------------------------------------------- theorems

  /** Exactly one submission: whatever is dropped, reverted, given up or retried, no checkpoint is
      ever sent twice, and every transaction that was sent has a row or is on record as pending. */
  lemma AtMostOneSubmission(cfg: Config, from: Address, ops: seq<Op>)
    requires ValidConfig(cfg) && (cfg.pendingFile || forall i | 0 <= i < |ops| :: !ops[i].CrashOp?)
    ensures SentOnce(Run(cfg, from, ops).world.chain)
    ensures AllCovered(cfg, Run(cfg, from, ops).world)
  {
    RunKeeps(cfg, from, ops);
  }

  /** A stored row is final evidence: whenever it was written, the chain still bears it out. So a
      confirmed row passes every check of the verifier, now and in every later state, and a row that
      is not confirmed passes in none. */
  lemma RowsVerify(cfg: Config, from: Address, ops: seq<Op>, r: AnchorReceipt)
    requires ValidConfig(cfg) && (cfg.pendingFile || forall i | 0 <= i < |ops| :: !ops[i].CrashOp?)
    requires r in Run(cfg, from, ops).world.evidence.rows
    ensures var chain := Run(cfg, from, ops).world.chain;
      Attests(r, r.anchor.checkpointHash) && ShownBy(r, r.anchor.checkpointHash, chain) <==> r.status == Confirmed
    ensures r.status != Submitted
    ensures r.status == Confirmed ==> r.confirmations >= cfg.required
  {
    RunKeeps(cfg, from, ops);
    var st := Run(cfg, from, ops);
    hide Run, Inv;
    GenuineRowVerifies(cfg, st, r);
  }

  lemma GenuineRowVerifies(cfg: Config, st: State, r: AnchorReceipt)
    requires ValidConfig(cfg) && Inv(cfg, st) && r in st.world.evidence.rows
    ensures Attests(r, r.anchor.checkpointHash) && ShownBy(r, r.anchor.checkpointHash, st.world.chain)
       <==> r.status == Confirmed
    ensures r.status != Submitted
    ensures r.status == Confirmed ==> r.confirmations >= cfg.required
  {
    var c := st.world.chain;
    assert Genuine(cfg, st.world, r.anchor) && RowTrue(cfg, c, r);
    assert InclusionAgrees(c, r.anchor.transactionHash);
    var s := SentOf(r.anchor);
    var i :| 0 <= i < |c.sent| && c.sent[i] == s;
    assert IsSent(c, c.sent[i]);
  }

  lemma {:induction false} RowsAreNeverTakenBack(cfg: Config, from: Address, ops: seq<Op>, more: seq<Op>)
    requires ValidConfig(cfg)
    ensures Run(cfg, from, ops).world.evidence.rows <= Run(cfg, from, ops + more).world.evidence.rows
    decreases |more|
  {
    if more == [] {
      assert ops + more == ops;
    } else {
      var n := |more| - 1;
      RowsAreNeverTakenBack(cfg, from, ops, more[..n]);
      assert (ops + more)[..|ops + more| - 1] == ops + more[..n];
      RowsGrow(cfg, Run(cfg, from, ops + more[..n]), more[n]);
    }
  }

  lemma RowsGrow(cfg: Config, st: State, op: Op)
    requires ValidConfig(cfg)
    ensures st.world.evidence.rows <= Next(cfg, st, op).world.evidence.rows
  {
    hide SendWithRetry, Poll, Mine, FindRow, FindRowForTx, FindPending, RemovePending;
  }

  // ---------------------------------------------------------------- what callers are told

  /** No caller holds a receipt that says confirmed or failed without a stored row that says so. */
  ghost predicate Backed(st: State)
  {
    forall r <- st.issued :: r.status == Submitted || r in st.world.evidence.rows
  }

  lemma SubmitIsBacked(cfg: Config, w: World, m: Manifest, mined: Sleeps)
    requires ValidConfig(cfg)
    ensures var (v, r) := Submit(cfg, w, m, mined); r.Ok? ==> r.value.status == Submitted || r.value in v.evidence.rows
  {
    hide SendWithRetry, FindRow, FindPending, Reserve;
    if m.runIdHash.HashOfRun? {
      FindRowFinds(w.evidence.rows, cfg.chainId, m.runIdHash.runId, m.checkpointHash);
    }
  }

  lemma AwaitIsBacked(cfg: Config, w: World, r: AnchorReceipt, mined: Sleeps)
    requires ValidConfig(cfg)
    ensures var (v, a) := Await(cfg, w, r, mined); a.Ok? ==> a.value.status == Submitted || a.value in v.evidence.rows
  {
    hide Poll, FindRowForTx, KeyTaken, RemovePending;
    FindRowForTxFinds(w.evidence.rows, cfg.chainId, r.anchor.runId, r.anchor.transactionHash);
  }

  lemma NextIsBacked(cfg: Config, st: State, op: Op)
    requires ValidConfig(cfg) && Backed(st)
    ensures Backed(Next(cfg, st, op))
  {
    hide Submit, Await, Mine, StoreCheckpoint;
    RowsGrow(cfg, st, op);
    match op
    case SubmitOp(m, mined) => SubmitIsBacked(cfg, st.world, m, mined);
    case AwaitOp(r, mined) => AwaitIsBacked(cfg, st.world, r, mined);
    case _ =>
  }

  /** In every run, crashes included: a receipt in a caller's hands is submitted or is a stored row. */
  lemma {:induction false} DecisionsAreStored(cfg: Config, from: Address, ops: seq<Op>)
    requires ValidConfig(cfg)
    ensures forall r <- Run(cfg, from, ops).issued ::
              r.status == Submitted || r in Run(cfg, from, ops).world.evidence.rows
  {
    hide Next;
    if ops != [] {
      var n := |ops| - 1;
      DecisionsAreStored(cfg, from, ops[..n]);
      NextIsBacked(cfg, Run(cfg, from, ops[..n]), ops[n]);
    }
  }

  /** Without both permissions nothing ever goes out to mainnet, whatever is asked. */
  lemma {:induction false} MainnetNeedsBoth(cfg: Config, from: Address, ops: seq<Op>)
    requires ValidConfig(cfg) && cfg.network == BaseMainnet && !(cfg.allowMainnet && cfg.envAllows)
    ensures Sound(Run(cfg, from, ops).world.chain) && Run(cfg, from, ops).world.chain.sent == []
  {
    hide Next, Sound;
    if ops == [] {
      NewChainIsSound(from);
    } else {
      var n := |ops| - 1;
      MainnetNeedsBoth(cfg, from, ops[..n]);
      var st := Run(cfg, from, ops[..n]);
      if Enabled(st, ops[n]) {
        DisallowedKeepsChain(cfg, st, ops[n]);
      }
    }
  }

  lemma NewChainIsSound(from: Address)
    ensures Sound(NewChain(from))
  {
  }

  lemma DisallowedKeepsChain(cfg: Config, st: State, op: Op)
    requires ValidConfig(cfg) && cfg.network == BaseMainnet && !(cfg.allowMainnet && cfg.envAllows)
    requires Sound(st.world.chain)
    ensures Sound(Next(cfg, st, op).world.chain) && Next(cfg, st, op).world.chain.sent == st.world.chain.sent
  {
    hide Sound, Mine, StoreCheckpoint, Submit, Await, AwaitOutcome, PolledUntil;
    match op
    case SubmitOp(m, mined) => SubmitMeans(cfg, st.world, m, mined);
    case AwaitOp(r, mined) => AwaitMeans(cfg, st.world, r, mined);
    case MineOp(_) =>
      MovedChainKeeps(st.world.chain, op);
    case RevertOp(_) =>
      MovedChainKeeps(st.world.chain, op);
    case DropOp(_) =>
      MovedChainKeeps(st.world.chain, op);
    case _ =>
  }

  // ---------------------------------------------------------------- anchoring succeeds

  /** The chain injects no fault any more, and has not reverted the transaction. */
  predicate Friendly(c: Chain, tx: TxHash)
  {
    c.revertNext == 0 && (tx in c.receipts ==> c.receipts[tx].status == Success)
  }

  /** A sent transaction is mined, successfully, as soon as one block comes. */
  lemma SentIsMined(c: Chain, s: Sent, count: nat)
    requires Sound(c) && s in c.sent && Friendly(c, s.transactionHash) && count >= 1
    ensures var d := Mine(c, count);
      s.transactionHash in d.receipts && d.receipts[s.transactionHash].status == Success
  {
    hide Mine;
    MineMeans(c, count);
    SentIsPendingOrMined(c, s);
    hide Sound;
    if s.transactionHash in c.pendingHashes {
      var i :| 0 <= i < |c.pendingHashes| && c.pendingHashes[i] == s.transactionHash;
    }
  }

  lemma SentIsPendingOrMined(c: Chain, s: Sent)
    requires Sound(c) && s in c.sent
    ensures s.transactionHash in c.receipts || s.transactionHash in c.pendingHashes
  {
    var i :| 0 <= i < |c.sent| && c.sent[i] == s;
    assert IsSent(c, c.sent[i]);
  }

  /** Waiting for a sent transaction on a friendly chain on which blocks keep coming. */
  lemma FriendlyPollConfirms(cfg: Config, c: Chain, s: Sent, mined: Sleeps)
    requires ValidConfig(cfg) && Sound(c) && s in c.sent && Friendly(c, s.transactionHash)
    requires cfg.required + 1 <= cfg.pollAttempts && forall i: nat :: mined(i) >= 1
    ensures Poll(cfg, c, s.transactionHash, 1, None, mined).1.final == Some(Confirmed)
  {
    hide Sound, Mine, Poll, Friendly;
    SentIsMined(c, s, mined(1));
    assert ChainAfter(c, 1, 0, mined) == c;
    assert ChainAfter(c, 1, 1, mined) == Mine(c, mined(1));
    InclusionLeadsToConfirmation(cfg, c, s.transactionHash, 2, mined);
  }

  /** From any state a run can reach: waiting for an issued receipt on a friendly chain ends with a
      confirmed row for it in the store, and that row is the answer. */
  lemma WaitingStoresConfirmation(cfg: Config, st: State, r: AnchorReceipt, mined: Sleeps)
    requires ValidConfig(cfg) && NetworkAllowed(cfg) && Inv(cfg, st) && r in st.issued
    requires Friendly(st.world.chain, r.anchor.transactionHash)
    requires cfg.required + 1 <= cfg.pollAttempts && forall i: nat :: mined(i) >= 1
    ensures var (v, answer) := Await(cfg, st.world, r, mined);
      && answer.Ok? && answer.value in v.evidence.rows && answer.value.status == Confirmed
      && answer.value.anchor.transactionHash == r.anchor.transactionHash
  {
    hide Sound, Poll, Inv, Friendly, RowTrue, Genuine, Await, AwaitOutcome, PolledUntil;
    IssuedIsGenuine(cfg, st, r);
    InvIsSound(cfg, st);
    GenuineIsSent(cfg, st.world, r.anchor);
    FriendlyPollConfirms(cfg, st.world.chain, SentOf(r.anchor), mined);
    PolledKeeps(cfg, st, r, mined);
    var d := Poll(cfg, st.world.chain, r.anchor.transactionHash, 1, None, mined).0;
    ConfirmedIsDeep(cfg, st.world.chain, r.anchor.transactionHash, mined);
    AwaitMeans(cfg, st.world, r, mined);
    AwaitEndsAt(cfg, st.world, r, mined);
    PollObserves(cfg, st.world.chain, r.anchor.transactionHash, 1, None, mined);
    DepthIs(cfg, d, r.anchor.transactionHash);
    var (v, answer) := Await(cfg, st.world, r, mined);
    ConfirmedOutcome(cfg, st.(world := st.world.(chain := d)), st.world, r, v, answer);
  }

  lemma GenuineIsSent(cfg: Config, w: World, a: Anchor)
    requires Genuine(cfg, w, a)
    ensures SentOf(a) in w.chain.sent
  {
  }

  lemma AwaitEndsAt(cfg: Config, w: World, r: AnchorReceipt, mined: Sleeps)
    requires ValidConfig(cfg) && NetworkAllowed(cfg)
    ensures Await(cfg, w, r, mined).0.chain == Poll(cfg, w.chain, r.anchor.transactionHash, 1, None, mined).0
  {
    hide Poll, FindRowForTx, KeyTaken, RemovePending;
  }

  /** A decision for success is stored, unless a row was stored before, which then is one too. */
  lemma ConfirmedOutcome(cfg: Config, polled: State, w: World, r: AnchorReceipt, v: World,
                         answer: Result<AnchorReceipt, Error>)
    requires ValidConfig(cfg) && Inv(cfg, polled) && Genuine(cfg, polled.world, r.anchor)
    requires polled.world == w.(chain := v.chain) && AwaitOutcome(cfg, w, r, v, answer)
    requires Decides(cfg, v.chain, r.anchor.transactionHash)
    requires v.chain.receipts[r.anchor.transactionHash].status == Success
    ensures answer.Ok? && answer.value in v.evidence.rows && answer.value.status == Confirmed
    ensures answer.value.anchor.transactionHash == r.anchor.transactionHash
  {
    hide Sound, Decides, Genuine;
    forall q <- w.evidence.rows | q.anchor.transactionHash == r.anchor.transactionHash
      ensures RowForTx(q, cfg.chainId, r.anchor.runId, r.anchor.transactionHash) && q.status == Confirmed
    {
      SameTransaction(cfg, polled, q, r.anchor);
    }
    hide Inv, AllGenuine, RowTrue;
  }

  lemma SameTransaction(cfg: Config, st: State, q: AnchorReceipt, a: Anchor)
    requires ValidConfig(cfg) && Inv(cfg, st) && Genuine(cfg, st.world, a) && q in st.world.evidence.rows
    requires q.anchor.transactionHash == a.transactionHash && a.transactionHash in st.world.chain.receipts
    requires st.world.chain.receipts[a.transactionHash].status == Success
    ensures RowForTx(q, cfg.chainId, a.runId, a.transactionHash) && q.status == Confirmed
  {
    assert Genuine(cfg, st.world, q.anchor) && RowTrue(cfg, st.world.chain, q);
    GenuinePair(cfg, st.world, q.anchor, a);
  }

  const EVERY_BLOCK: Sleeps := i => 1

  /** Store a checkpoint, submit it, wait for the receipt that submission returns. */
  function OneAnchoring(cfg: Config, from: Address, runId: RunId, digest: nat): seq<Op>
  {
    var m := Manifest(HashOfRun(runId), 0, Sha256(digest));
    var bytes := DigestBytes(digest);
    var a := Anchor(runId, 0, Sha256(digest), cfg.network, cfg.chainId, FakeTx(1, bytes), from,
                    cfg.anchorAddress, bytes);
    [StoreOp(runId, Sha256(digest)), SubmitOp(m, NO_BLOCKS),
     AwaitOp(AnchorReceipt(a, None, None, Submitted, 0), EVERY_BLOCK)]
  }

  /** Runs that end with a confirmed row exist for every configuration with polls to spare. */
  lemma AnchoringIsPossible(cfg: Config, from: Address, runId: RunId, digest: nat)
    requires ValidConfig(cfg) && NetworkAllowed(cfg) && cfg.required + 1 <= cfg.pollAttempts
    ensures exists r <- Run(cfg, from, OneAnchoring(cfg, from, runId, digest)).world.evidence.rows ::
              r.status == Confirmed && r.anchor.checkpointHash == Sha256(digest)
  {
    hide Run, Inv, Await;
    var ops := OneAnchoring(cfg, from, runId, digest);
    var receipt := ops[2].receipt;
    RunNothing(cfg, from);
    RunSteps(cfg, from, [], ops[0]);
    RunSteps(cfg, from, [ops[0]], ops[1]);
    RunSteps(cfg, from, [ops[0], ops[1]], ops[2]);
    assert [] + [ops[0]] == [ops[0]] && [ops[0]] + [ops[1]] == [ops[0], ops[1]] && [ops[0], ops[1]] + [ops[2]] == ops;
    FirstSubmission(cfg, from, runId, digest);
    var st := Run(cfg, from, [ops[0], ops[1]]);
    RunKeeps(cfg, from, [ops[0], ops[1]]);
    WaitingStoresConfirmation(cfg, st, receipt, EVERY_BLOCK);
    RunKeeps(cfg, from, ops);
    var answer := Await(cfg, st.world, receipt, EVERY_BLOCK).1;
    SameCheckpoint(cfg, Run(cfg, from, ops), answer.value, receipt);
  }

  lemma FirstSubmission(cfg: Config, from: Address, runId: RunId, digest: nat)
    requires ValidConfig(cfg) && NetworkAllowed(cfg)
    ensures var ops := OneAnchoring(cfg, from, runId, digest);
      var st := Next(cfg, Next(cfg, Start(from), ops[0]), ops[1]);
      ops[2].receipt in st.issued && Friendly(st.world.chain, ops[2].receipt.anchor.transactionHash)
  {
  }

  lemma SameCheckpoint(cfg: Config, st: State, q: AnchorReceipt, r: AnchorReceipt)
    requires ValidConfig(cfg) && Inv(cfg, st) && q in st.world.evidence.rows && r in st.issued
    requires q.anchor.transactionHash == r.anchor.transactionHash
    ensures q.anchor.checkpointHash == r.anchor.checkpointHash
  {
    assert Genuine(cfg, st.world, q.anchor) && Genuine(cfg, st.world, r.anchor);
    hide Genuine;
    GenuinePair(cfg, st.world, q.anchor, r.anchor);
  }

  // ---------------------------------------------------------------- without a sidecar

  /** Two blocks never being needed, nothing is mined during the sleeps of this run. */
  const NO_BLOCKS: Sleeps := i => 0

  /** Store a checkpoint, submit it, crash, submit it again. */
  function CrashBetween(runId: RunId, digest: nat): seq<Op>
  {
    var m := Manifest(HashOfRun(runId), 0, Sha256(digest));
    [StoreOp(runId, Sha256(digest)), SubmitOp(m, NO_BLOCKS), CrashOp, SubmitOp(m, NO_BLOCKS)]
  }

  lemma RunSteps(cfg: Config, from: Address, ops: seq<Op>, op: Op)
    requires ValidConfig(cfg)
    ensures Run(cfg, from, ops + [op])
         == var st := Run(cfg, from, ops); if Enabled(st, op) then Next(cfg, st, op) else st
  {
    assert (ops + [op])[..|ops|] == ops;
  }

  /** A send on a chain that drops nothing. */
  lemma FirstSend(cfg: Config, w: World, runId: RunId, m: Manifest)
    requires ValidConfig(cfg) && NetworkAllowed(cfg) && m.runIdHash == HashOfRun(runId) && m.checkpointHash.Sha256?
    requires runId in w.evidence.runs && runId in w.evidence.checkpoints
    requires m.checkpointHash in w.evidence.checkpoints[runId] && w.evidence.rows == []
    requires w.chain.dropNext == 0 && w.reservations == map[] && w.sidecar == []
    ensures var (v, r) := Submit(cfg, w, m, NO_BLOCKS);
      && r.Ok? && v.evidence == w.evidence && v.chain.dropNext == 0 && (!cfg.pendingFile ==> v.sidecar == [])
      && v.chain.sent == w.chain.sent + [Sent(FakeTx(w.chain.nonce + 1, DigestBytes(m.checkpointHash.digest)),
                                              w.chain.from, cfg.anchorAddress, DigestBytes(m.checkpointHash.digest))]
  {
  }

  /** Without a sidecar a crash forgets the reservation, and the checkpoint is sent again. */
  lemma CrashWithoutSidecarSendsTwice(cfg: Config, from: Address, runId: RunId, digest: nat)
    requires ValidConfig(cfg) && NetworkAllowed(cfg) && !cfg.pendingFile
    ensures !SentOnce(Run(cfg, from, CrashBetween(runId, digest)).world.chain)
  {
    hide Run, Submit, Mine;
    var m := Manifest(HashOfRun(runId), 0, Sha256(digest));
    var store, submit := StoreOp(runId, Sha256(digest)), SubmitOp(m, NO_BLOCKS);
    RunNothing(cfg, from);
    RunSteps(cfg, from, [], store);
    assert [] + [store] == [store];
    var s1 := Run(cfg, from, [store]);
    FirstSend(cfg, s1.world, runId, m);
    RunSteps(cfg, from, [store], submit);
    var s2 := Run(cfg, from, [store] + [submit]);
    RunSteps(cfg, from, [store] + [submit], CrashOp);
    var s3 := Run(cfg, from, [store] + [submit] + [CrashOp]);
    FirstSend(cfg, s3.world, runId, m);
    RunSteps(cfg, from, [store] + [submit] + [CrashOp], submit);
    var s4 := Run(cfg, from, [store] + [submit] + [CrashOp] + [submit]);
    assert CrashBetween(runId, digest) == [store] + [submit] + [CrashOp] + [submit];
    assert s4.world.chain.sent[0].inputData == s4.world.chain.sent[1].inputData;
  }

  lemma RunNothing(cfg: Config, from: Address)
    requires ValidConfig(cfg)
    ensures Run(cfg, from, []) == Start(from)
  {
  }

  /** Across crashes, at most one submission per checkpoint holds in every run if and only if the
      publisher has a sidecar. */
  lemma SidecarIsNecessaryAndSufficient(cfg: Config, from: Address)
    requires ValidConfig(cfg) && NetworkAllowed(cfg)
    ensures (forall ops: seq<Op> :: SentOnce(Run(cfg, from, ops).world.chain)) <==> cfg.pendingFile
  {
    hide Run;
    if cfg.pendingFile {
      forall ops: seq<Op>
        ensures SentOnce(Run(cfg, from, ops).world.chain)
      {
        AtMostOneSubmission(cfg, from, ops);
      }
    } else {
      CrashWithoutSidecarSendsTwice(cfg, from, 0, 0);
    }
  }
}
