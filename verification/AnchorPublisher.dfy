/** The publisher as an object over a transport, an evidence store and a pending sidecar. Its methods
    do what the protocol functions say. */
module AnchorPublisher {
  import opened Wrappers
  import opened AnchorChain
  import opened AnchorVerify
  import opened AnchorProtocol

  class EvidenceStore {
    var runs: seq<RunId>
    var checkpoints: map<RunId, set<CheckpointHash>>
    var rows: seq<AnchorReceipt>

    ghost function View(): Evidence
      reads this
    {
      Evidence(runs, checkpoints, rows)
    }

    constructor ()
      ensures View() == Evidence([], map[], [])
    {
      runs, checkpoints, rows := [], map[], [];
    }

    /** Append-only, with one row per chain and transaction; false where the insert throws. */
    method InsertAnchorReceipt(r: AnchorReceipt) returns (inserted: bool)
      modifies this
      ensures inserted == !KeyTaken(old(rows), r.anchor)
      ensures View() == old(View()).(rows := if inserted then old(rows) + [r] else old(rows))
    {
      for k := 0 to |rows|
        invariant forall q <- rows[..k] ::
          !(q.anchor.chainId == r.anchor.chainId && q.anchor.transactionHash == r.anchor.transactionHash)
        invariant View() == old(View())
      {
        if rows[k].anchor.chainId == r.anchor.chainId && rows[k].anchor.transactionHash == r.anchor.transactionHash {
          return false;
        }
      }
      assert rows[..|rows|] == rows;
      rows := rows + [r];
      return true;
    }
  }

  class PendingFile {
    var submissions: seq<Anchor>

    constructor ()
      ensures submissions == []
    {
      submissions := [];
    }

    /** Afterwards the entry is on file, last and once; entries for other transactions are untouched, and
        a search for its checkpoint finds an entry. */
    method AddPendingSubmission(a: Anchor)
      modifies this
      ensures submissions == AddPending(old(submissions), a)
      ensures submissions != [] && submissions[|submissions| - 1] == a && multiset(submissions)[a] == 1
      ensures forall b :: b in submissions <==>
                b == a || (b in old(submissions) && !(b.chainId == a.chainId && b.transactionHash == a.transactionHash))
      ensures FindPending(submissions, a.chainId, a.checkpointHash).Some?
    {
      RemovePendingIs(submissions, a.chainId, a.transactionHash);
      var existing := RemovePending(submissions, a.chainId, a.transactionHash);
      assert a !in existing;
      submissions := existing + [a];
      FindPendingFinds(submissions, a.chainId, a.checkpointHash);
    }

    method RemovePendingSubmission(chainId: nat, tx: TxHash)
      modifies this
      ensures submissions == RemovePending(old(submissions), chainId, tx)
      ensures forall b :: b in submissions <==>
                b in old(submissions) && !(b.chainId == chainId && b.transactionHash == tx)
    {
      RemovePendingIs(submissions, chainId, tx);
      submissions := RemovePending(submissions, chainId, tx);
    }
  }

  class BaseAnchorPublisher {
    const cfg: Config
    const transport: FakeChainTransport
    const evidence: EvidenceStore
    const sidecar: PendingFile
    var reservations: map<Key, Anchor>

    ghost function View(): World
      reads this, transport, evidence, sidecar
    {
      World(transport.View(), evidence.View(), sidecar.submissions, reservations)
    }

    constructor (cfg: Config, transport: FakeChainTransport, evidence: EvidenceStore, sidecar: PendingFile)
      requires cfg.attempts >= 1 && cfg.pollAttempts >= 1 && cfg.chainId == ExpectedChainId(cfg.network)
      ensures this.cfg == cfg && this.transport == transport && this.evidence == evidence && this.sidecar == sidecar
      ensures reservations == map[]
    {
      this.cfg, this.transport, this.evidence, this.sidecar := cfg, transport, evidence, sidecar;
      reservations := map[];
    }

    method ResolveRunId(h: RunIdHash) returns (runId: Option<RunId>)
      ensures runId == if h.HashOfRun? && h.runId in evidence.runs then Some(h.runId) else None
    {
      for k := 0 to |evidence.runs|
        invariant h.HashOfRun? ==> h.runId !in evidence.runs[..k]
      {
        if HashOfRun(evidence.runs[k]) == h {
          return Some(evidence.runs[k]);
        }
      }
      return None;
    }

    /** Send until one send succeeds or the attempts run out; only a failed send is retried. */
    method SendWithRetry(h: CheckpointHash, mined: Sleeps) returns (sent: Option<Sent>)
      requires cfg.attempts >= 1
      modifies transport
      ensures (transport.View(), sent) == AnchorProtocol.SendWithRetry(cfg, old(transport.View()), h, 1, mined)
      ensures Sound(old(transport.View())) && h.Sha256? ==>
                (sent.Some? <==> old(transport.dropNextCount) < cfg.attempts)
    {
      hide Send, Mine, Sound;
      if Sound(transport.View()) && h.Sha256? {
        RetryOutlastsDrops(cfg, transport.View(), h, 1, mined);
      }
      ghost var goal := AnchorProtocol.SendWithRetry(cfg, transport.View(), h, 1, mined);
      var attempt := 1;
      while attempt <= cfg.attempts
        invariant 1 <= attempt <= cfg.attempts
        invariant goal == AnchorProtocol.SendWithRetry(cfg, transport.View(), h, attempt, mined)
        decreases cfg.attempts - attempt
      {
        sent := transport.SendAnchorTransaction(h, cfg.anchorAddress);
        if sent.Some? || attempt == cfg.attempts {
          return;
        }
        var head := transport.MineBlock(mined(attempt));
        attempt := attempt + 1;
      }
    }

    method SubmitOnce(m: Manifest, mined: Sleeps) returns (r: Result<AnchorReceipt, Error>)
      requires cfg.attempts >= 1 && NetworkAllowed(cfg)
      modifies this, transport, sidecar
      ensures (View(), r) == AnchorProtocol.Submit(cfg, old(View()), m, mined)
    {
      hide AnchorProtocol.SendWithRetry;
      var runId := ResolveRunId(m.runIdHash);
      if runId.None? {
        return Err(UnknownRun);
      }
      if runId.value !in evidence.checkpoints || m.checkpointHash !in evidence.checkpoints[runId.value] {
        return Err(UnknownCheckpoint);
      }
      var existing := FindRow(evidence.rows, cfg.chainId, runId.value, m.checkpointHash);
      if existing.Some? {
        return Ok(existing.value);
      }
      var reserved := if (cfg.chainId, m.checkpointHash) in reservations
        then Some(reservations[(cfg.chainId, m.checkpointHash)])
        else FindPending(if cfg.pendingFile then sidecar.submissions else [], cfg.chainId, m.checkpointHash);
      if reserved.Some? {
        return Ok(ReceiptFromPending(reserved.value));
      }
      r := SendAndReserve(runId.value, m, mined);
    }

    method SendAndReserve(runId: RunId, m: Manifest, mined: Sleeps) returns (r: Result<AnchorReceipt, Error>)
      requires cfg.attempts >= 1
      modifies this, transport, sidecar
      ensures (View(), r) == AnchorProtocol.SendAndReserve(cfg, old(View()), runId, m, mined)
    {
      hide AnchorProtocol.SendWithRetry;
      if AnchorInputData(m.checkpointHash).None? {
        return Err(MalformedHash);
      }
      var sent := SendWithRetry(m.checkpointHash, mined);
      if sent.None? {
        return Err(SubmissionFailed);
      }
      var submission := Submission(cfg, runId, m, sent.value);
      reservations := reservations[(cfg.chainId, m.checkpointHash) := submission];
      if cfg.pendingFile {
        sidecar.AddPendingSubmission(submission);
      }
      return Ok(ReceiptFromPending(submission));
    }

    /** On a sound chain, what a submission has to do: answer from the records, else send exactly once. */
    method Submit(m: Manifest, mined: Sleeps) returns (r: Result<AnchorReceipt, Error>)
      requires cfg.attempts >= 1
      modifies this, transport, sidecar
      ensures (View(), r) == AnchorProtocol.Submit(cfg, old(View()), m, mined)
      ensures Sound(old(transport.View())) ==> SubmitOutcome(cfg, old(View()), m, View(), r)
    {
      hide Sound, SubmitOutcome, AnchorProtocol.Submit;
      if Sound(transport.View()) {
        SubmitMeans(cfg, View(), m, mined);
      }
      if !NetworkAllowed(cfg) {
        DisallowedSubmit(cfg, View(), m, mined);
        return Err(MainnetDisabled);
      }
      r := SubmitOnce(m, mined);
    }

    /** Poll, and sleep between polls, until a poll decides or the budget runs out. */
    method PollUntilDecided(tx: TxHash, mined: Sleeps) returns (verdict: Verdict)
      requires cfg.pollAttempts >= 1
      modifies transport
      ensures (transport.View(), verdict) == Poll(cfg, old(transport.View()), tx, 1, None, mined)
    {
      hide Mine;
      ghost var goal := Poll(cfg, transport.View(), tx, 1, None, mined);
      var observed: Option<Inclusion> := None;
      var attempt := 1;
      while attempt <= cfg.pollAttempts
        invariant 1 <= attempt <= cfg.pollAttempts
        invariant goal == Poll(cfg, transport.View(), tx, attempt, observed, mined)
        decreases cfg.pollAttempts - attempt
      {
        var chainReceipt := transport.GetTransactionReceipt(tx);
        if chainReceipt.Some? {
          var head := transport.LatestBlockNumber();
          var mined := chainReceipt.value.blockNumber;
          var depth := if head + 1 < mined then 0 else head + 1 - mined;
          observed := Some(Inclusion(mined, chainReceipt.value.blockHash, depth));
          if chainReceipt.value.status == Reverted {
            return Verdict(Some(Failed), observed);
          }
          if depth >= cfg.required {
            return Verdict(Some(Confirmed), observed);
          }
        }
        if attempt == cfg.pollAttempts {
          return Verdict(None, observed);
        }
        var head := transport.MineBlock(mined(attempt));
        attempt := attempt + 1;
      }
      verdict := Verdict(None, observed);
    }

    /** The row goes in before its pending records come out. */
    method Finalize(r: AnchorReceipt) returns (result: Result<AnchorReceipt, Error>)
      modifies this, evidence, sidecar
      ensures (View(), result) == AnchorProtocol.Finalize(cfg, old(View()), r)
    {
      var stored := FindRowForTx(evidence.rows, cfg.chainId, r.anchor.runId, r.anchor.transactionHash);
      if stored.Some? {
        return Ok(stored.value);
      }
      var inserted := evidence.InsertAnchorReceipt(r);
      if !inserted {
        return Err(InsertConflict);
      }
      reservations := reservations - {(r.anchor.chainId, r.anchor.checkpointHash)};
      if cfg.pendingFile {
        sidecar.RemovePendingSubmission(r.anchor.chainId, r.anchor.transactionHash);
      }
      return Ok(r);
    }

    /** On a sound chain, what waiting has to do: poll until a poll decides, then store that decision and
        answer with it, or give up with a submitted receipt; a stored row always wins. */
    method AwaitConfirmation(r: AnchorReceipt, mined: Sleeps) returns (result: Result<AnchorReceipt, Error>)
      requires cfg.pollAttempts >= 1
      modifies this, transport, evidence, sidecar
      ensures (View(), result) == AnchorProtocol.Await(cfg, old(View()), r, mined)
      ensures cfg.network == BaseMainnet && !(cfg.allowMainnet && cfg.envAllows) ==>
                View() == old(View()) && result == Err(MainnetDisabled)
      ensures Sound(old(transport.View())) && (cfg.network == BaseMainnet ==> cfg.allowMainnet && cfg.envAllows) ==>
                && PolledUntil(cfg, old(transport.View()), r.anchor.transactionHash, mined, transport.View())
                && AwaitOutcome(cfg, old(View()), r, View(), result)
    {
      hide Poll, Sound, AwaitOutcome, PolledUntil;
      if Sound(transport.View()) {
        AwaitMeans(cfg, View(), r, mined);
      }
      if !NetworkAllowed(cfg) {
        return Err(MainnetDisabled);
      }
      var verdict := PollUntilDecided(r.anchor.transactionHash, mined);
      if verdict.final.Some? {
        result := Finalize(WithInclusion(r, verdict.final.value, verdict.observed));
      } else {
        var stored := FindRowForTx(evidence.rows, cfg.chainId, r.anchor.runId, r.anchor.transactionHash);
        result := Ok(if stored.Some? then stored.value else WithInclusion(r, Submitted, verdict.observed));
      }
    }
  }
}
