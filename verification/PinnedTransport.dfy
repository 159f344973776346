/** Concurrent submissions and confirmations of one publisher process over the signing transport, one
    await at a time. A publisher has one anchor address, so a checkpoint stands for the pair of
    destination and calldata that the transport pins. */
module PinnedTransport {
  import opened Wrappers

  type Checkpoint = nat

  type TaskId = nat

  /** A serialized transaction: what was signed. Two signings differ in nonce or fees. */
  datatype Bytes = Signed(checkpoint: Checkpoint, nonce: nat, fees: nat)

  /** The transaction hash is derived from the bytes alone. */
  datatype Hash = Keccak(bytes: Bytes)

  datatype Status = Pending | Resolved(bytes: Bytes) | Rejected

  /** A signing in progress or settled; dropped once its initiator has taken it out of the map. */
  datatype Promise = Promise(checkpoint: Checkpoint, initiator: TaskId, status: Status, dropped: bool)

  datatype Record = Record(checkpoint: Checkpoint, hash: Hash)

  datatype Task =
    | ReadingRows(c: Checkpoint)
    | CheckingReserved(c: Checkpoint)
    | Waiting(c: Checkpoint, promise: nat, attempt: nat)
    | Broadcasting(c: Checkpoint, bytes: Bytes, attempt: nat)
    | LookingUp(c: Checkpoint, bytes: Bytes, attempt: nat)
    | Sleeping(c: Checkpoint, attempt: nat)
    | Sent(c: Checkpoint, hash: Hash)
    | Submitted(c: Checkpoint, hash: Hash)
    | Joined(c: Checkpoint, owner: TaskId)
    | Failed(c: Checkpoint)
    | Polling(c: Checkpoint, hash: Hash)
    | FinalReading(c: Checkpoint, hash: Hash)
    | Inserting(c: Checkpoint, hash: Hash)
    | Clearing(c: Checkpoint, hash: Hash)
    | Settled(c: Checkpoint, hash: Hash)

  datatype State = State(
    rows: seq<Record>, sidecar: seq<Record>, reservations: map<Checkpoint, Hash>,
    inFlight: map<Checkpoint, TaskId>, tasks: map<TaskId, Task>,
    pinned: map<Checkpoint, nat>, promises: seq<Promise>, broadcasts: seq<Bytes>)

  datatype Action =
    | StartSubmit(id: TaskId, c: Checkpoint)
    | StartConfirm(id: TaskId, c: Checkpoint, hash: Hash)
    | ReadRows(id: TaskId)
    | CheckReserved(id: TaskId)
    | Settle(promise: nat, signed: Option<(nat, nat)>)
    | Wake(id: TaskId)
    | BroadcastDone(id: TaskId, ok: bool)
    | LookupDone(id: TaskId, found: bool)
    | Retry(id: TaskId)
    | Reserve(id: TaskId)
    | Leave(id: TaskId)
    | JoinDone(id: TaskId)
    | Decide(id: TaskId, final: bool)
    | FinalRead(id: TaskId)
    | Insert(id: TaskId)
    | Clear(id: TaskId)

  // ---------------------------------------------------------------- lookups

  function Find(records: seq<Record>, c: Checkpoint): Option<Hash>
  {
    if records == [] then None
    else if records[0].checkpoint == c then Some(records[0].hash)
    else Find(records[1..], c)
  }

  predicate HasHash(records: seq<Record>, h: Hash)
  {
    exists r <- records :: r.hash == h
  }

  function Without(records: seq<Record>, h: Hash): seq<Record>
  {
    if records == [] then []
    else (if records[0].hash == h then [] else [records[0]]) + Without(records[1..], h)
  }

  /** In memory first, then in the sidecar. */
  function Reserved(s: State, c: Checkpoint): Option<Hash>
  {
    if c in s.reservations then Some(s.reservations[c]) else Find(s.sidecar, c)
  }

  // ---------------------------------------------------------------- steps

  function WithTask(s: State, id: TaskId, t: Task): State
  {
    s.(tasks := s.tasks[id := t])
  }

  /** The synchronous start of a send: await the pinned signing, or pin a new one. */
  function BeginSend(s: State, id: TaskId, c: Checkpoint, attempt: nat): State
  {
    if c in s.pinned then WithTask(s, id, Waiting(c, s.pinned[c], attempt))
    else
      var p := |s.promises|;
      WithTask(s.(pinned := s.pinned[c := p], promises := s.promises + [Promise(c, id, Pending, false)]),
               id, Waiting(c, p, attempt))
  }

  /** A send that threw is retried after a sleep while attempts remain. */
  function AfterThrow(attempts: nat, c: Checkpoint, attempt: nat): Task
  {
    if attempt < attempts then Sleeping(c, attempt + 1) else Failed(c)
  }

  /** The signing awaited has settled: broadcast its bytes, or throw. The caller that started a signing
      that failed takes it out of the map. */
  function Awake(attempts: nat, s: State, id: TaskId): State
    requires id in s.tasks && s.tasks[id].Waiting? && s.tasks[id].promise < |s.promises|
  {
    var t := s.tasks[id];
    var promise := s.promises[t.promise];
    if promise.status.Resolved? then
      WithTask(s.(broadcasts := s.broadcasts + [promise.status.bytes]), id,
               Broadcasting(t.c, promise.status.bytes, t.attempt))
    else
      var thrown := WithTask(s, id, AfterThrow(attempts, t.c, t.attempt));
      if promise.initiator == id then
        thrown.(pinned := thrown.pinned - {t.c}, promises := s.promises[t.promise := promise.(dropped := true)])
      else thrown
  }

  predicate Enabled(s: State, a: Action)
  {
    match a
    case StartSubmit(id, _) => id !in s.tasks
    case StartConfirm(id, c, h) => id !in s.tasks && Known(s, c, h)
    case ReadRows(id) => id in s.tasks && s.tasks[id].ReadingRows?
    case CheckReserved(id) => id in s.tasks && s.tasks[id].CheckingReserved?
    case Settle(p, _) => p < |s.promises| && s.promises[p].status.Pending?
    case Wake(id) => id in s.tasks && s.tasks[id].Waiting? && s.tasks[id].promise < |s.promises|
                     && !s.promises[s.tasks[id].promise].status.Pending?
    case BroadcastDone(id, _) => id in s.tasks && s.tasks[id].Broadcasting?
    case LookupDone(id, _) => id in s.tasks && s.tasks[id].LookingUp?
    case Retry(id) => id in s.tasks && s.tasks[id].Sleeping?
    case Reserve(id) => id in s.tasks && s.tasks[id].Sent?
    case Leave(id) => id in s.tasks && (s.tasks[id].Submitted? || s.tasks[id].Failed?)
                      && s.tasks[id].c in s.inFlight && s.inFlight[s.tasks[id].c] == id
    case JoinDone(id) => id in s.tasks && s.tasks[id].Joined? && s.tasks[id].owner in s.tasks
                         && (s.tasks[s.tasks[id].owner].Submitted? || s.tasks[s.tasks[id].owner].Failed?)
    case Decide(id, _) => id in s.tasks && s.tasks[id].Polling?
    case FinalRead(id) => id in s.tasks && s.tasks[id].FinalReading?
    case Insert(id) => id in s.tasks && s.tasks[id].Inserting?
    case Clear(id) => id in s.tasks && s.tasks[id].Clearing?
  }

  /** A caller can wait for a hash it was given, or for one it finds in the sidecar. */
  predicate Known(s: State, c: Checkpoint, h: Hash)
  {
    Record(c, h) in s.sidecar || exists id <- s.tasks :: s.tasks[id] == Submitted(c, h)
  }

  function Next(attempts: nat, s: State, a: Action): State
    requires Enabled(s, a)
  {
    match a
    case StartSubmit(id, c) =>
      if c in s.inFlight then WithTask(s, id, Joined(c, s.inFlight[c]))
      else WithTask(s.(inFlight := s.inFlight[c := id]), id, ReadingRows(c))
    case StartConfirm(id, c, h) => WithTask(s, id, Polling(c, h))
    case ReadRows(id) =>
      var c := s.tasks[id].c;
      var stored := Find(s.rows, c);
      WithTask(s, id, if stored.Some? then Submitted(c, stored.value) else CheckingReserved(c))
    case CheckReserved(id) =>
      var c := s.tasks[id].c;
      var reserved := Reserved(s, c);
      if reserved.Some? then WithTask(s, id, Submitted(c, reserved.value)) else BeginSend(s, id, c, 1)
    case Settle(p, signed) =>
      var c := s.promises[p].checkpoint;
      var status := if signed.Some? then Resolved(Signed(c, signed.value.0, signed.value.1)) else Rejected;
      s.(promises := s.promises[p := s.promises[p].(status := status)])
    case Wake(id) => Awake(attempts, s, id)
    case BroadcastDone(id, ok) =>
      var t := s.tasks[id];
      WithTask(s, id, if ok then Sent(t.c, Keccak(t.bytes)) else LookingUp(t.c, t.bytes, t.attempt))
    case LookupDone(id, found) =>
      var t := s.tasks[id];
      WithTask(s, id, if found then Sent(t.c, Keccak(t.bytes)) else AfterThrow(attempts, t.c, t.attempt))
    case Retry(id) => BeginSend(s, id, s.tasks[id].c, s.tasks[id].attempt)
    case Reserve(id) =>
      var t := s.tasks[id];
      WithTask(s.(reservations := s.reservations[t.c := t.hash],
                  sidecar := Without(s.sidecar, t.hash) + [Record(t.c, t.hash)]),
               id, Submitted(t.c, t.hash))
    case Leave(id) => s.(inFlight := s.inFlight - {s.tasks[id].c})
    case JoinDone(id) => WithTask(s, id, s.tasks[s.tasks[id].owner])
    case Decide(id, final) =>
      var t := s.tasks[id];
      WithTask(s, id, if final then FinalReading(t.c, t.hash) else Settled(t.c, t.hash))
    case FinalRead(id) =>
      var t := s.tasks[id];
      WithTask(s, id, if HasHash(s.rows, t.hash) then Settled(t.c, t.hash) else Inserting(t.c, t.hash))
    case Insert(id) =>
      var t := s.tasks[id];
      if HasHash(s.rows, t.hash) then WithTask(s, id, Settled(t.c, t.hash))
      else WithTask(s.(rows := s.rows + [Record(t.c, t.hash)]), id, Clearing(t.c, t.hash))
    case Clear(id) =>
      var t := s.tasks[id];
      WithTask(s.(reservations := s.reservations - {t.c}, sidecar := Without(s.sidecar, t.hash)),
               id, Settled(t.c, t.hash))
  }

  /** What an earlier process left behind: stored rows and sidecar entries. */
  datatype Legacy = Legacy(rows: seq<Record>, sidecar: seq<Record>)

  function Boot(left: Legacy): State
  {
    State(left.rows, left.sidecar, map[], map[], map[], map[], [], [])
  }

  /** An action that is not enabled is skipped. */
  function Step(attempts: nat, s: State, a: Action): State
  {
    if Enabled(s, a) then Next(attempts, s, a) else s
  }

  function Run(attempts: nat, s: State, actions: seq<Action>): State
    decreases |actions|
  {
    if actions == [] then s else Run(attempts, Step(attempts, s, actions[0]), actions[1..])
  }

  // ---------------------------------------------------------------- pinning

  /** The bytes were produced by a signing for this checkpoint. */
  predicate Minted(promises: seq<Promise>, c: Checkpoint, b: Bytes)
  {
    exists p <- promises :: p.checkpoint == c && p.status == Resolved(b)
  }

  /** Only a rejected signing is ever dropped, and every other one is the pinned one. */
  ghost predicate Pins(promises: seq<Promise>, pinned: map<Checkpoint, nat>)
  {
    && (forall p | 0 <= p < |promises| ::
          if promises[p].dropped then promises[p].status.Rejected?
          else promises[p].checkpoint in pinned && pinned[promises[p].checkpoint] == p)
    && (forall c <- pinned :: pinned[c] < |promises| && promises[pinned[c]].checkpoint == c
                              && !promises[pinned[c]].dropped)
    && (forall p <- promises :: p.status.Resolved? ==> p.status.bytes.checkpoint == p.checkpoint)
  }

  /** A waiter awaits a signing for its own checkpoint, and one that started it awaits it while pinned. */
  predicate TaskPinned(promises: seq<Promise>, id: TaskId, t: Task)
  {
    t.Waiting? ==> t.promise < |promises| && promises[t.promise].checkpoint == t.c
                   && (promises[t.promise].initiator == id ==> !promises[t.promise].dropped)
  }

  ghost predicate TasksPinned(s: State)
  {
    forall id <- s.tasks :: TaskPinned(s.promises, id, s.tasks[id])
  }

  /** Two signings of one checkpoint that both came through are the same one. */
  lemma MintedOnce(promises: seq<Promise>, pinned: map<Checkpoint, nat>, c: Checkpoint, a: Bytes, b: Bytes)
    requires Pins(promises, pinned) && Minted(promises, c, a) && Minted(promises, c, b)
    ensures a == b
  {
    var i :| 0 <= i < |promises| && promises[i].checkpoint == c && promises[i].status == Resolved(a);
    var j :| 0 <= j < |promises| && promises[j].checkpoint == c && promises[j].status == Resolved(b);
    assert !promises[i].dropped && !promises[j].dropped;
  }

  /** Signings are only added, and only a pending one changes its status. */
  ghost predicate Grown(before: seq<Promise>, after: seq<Promise>)
  {
    && |before| <= |after|
    && (forall p | 0 <= p < |before| ::
          && after[p].checkpoint == before[p].checkpoint
          && after[p].initiator == before[p].initiator
          && (before[p].status.Pending? || after[p].status == before[p].status))
  }

  lemma MintedStays(before: seq<Promise>, after: seq<Promise>, c: Checkpoint, b: Bytes)
    requires Grown(before, after) && Minted(before, c, b)
    ensures Minted(after, c, b)
  {
    var p :| 0 <= p < |before| && before[p].checkpoint == c && before[p].status == Resolved(b);
    assert after[p] in after;
  }

  lemma BeginSendPins(s: State, id: TaskId, c: Checkpoint, attempt: nat)
    requires Pins(s.promises, s.pinned) && TasksPinned(s)
    ensures var n := BeginSend(s, id, c, attempt);
      Pins(n.promises, n.pinned) && TasksPinned(n) && Grown(s.promises, n.promises)
  {
    if c !in s.pinned {
      var n := BeginSend(s, id, c, attempt);
      forall p | 0 <= p < |n.promises|
        ensures if n.promises[p].dropped then n.promises[p].status.Rejected?
                else n.promises[p].checkpoint in n.pinned && n.pinned[n.promises[p].checkpoint] == p
      {
        if p < |s.promises| { assert n.promises[p] == s.promises[p]; }
      }
    }
  }

  lemma SettlePins(s: State, p: nat, signed: Option<(nat, nat)>)
    requires Pins(s.promises, s.pinned) && TasksPinned(s)
    requires Enabled(s, Settle(p, signed))
    ensures var n := Next(0, s, Settle(p, signed));
      Pins(n.promises, n.pinned) && TasksPinned(n) && Grown(s.promises, n.promises)
  {
  }

  lemma AwakePins(attempts: nat, s: State, id: TaskId)
    requires Pins(s.promises, s.pinned) && TasksPinned(s)
    requires Enabled(s, Wake(id))
    ensures var n := Awake(attempts, s, id);
      Pins(n.promises, n.pinned) && TasksPinned(n) && Grown(s.promises, n.promises)
  {
    var t := s.tasks[id];
    assert TaskPinned(s.promises, id, t);
    var promise := s.promises[t.promise];
    if promise.status.Rejected? && promise.initiator == id {
      var n := Awake(attempts, s, id);
      assert n.promises == s.promises[t.promise := promise.(dropped := true)];
      forall other <- n.tasks ensures TaskPinned(n.promises, other, n.tasks[other]) {
        if other != id { assert TaskPinned(s.promises, other, s.tasks[other]); }
      }
    }
  }

  /** The other steps touch neither the signings nor the map, and leave no task waiting. */
  lemma MovePins(s: State, n: State, id: TaskId, t: Task)
    requires Pins(s.promises, s.pinned) && TasksPinned(s)
    requires n.promises == s.promises && n.pinned == s.pinned && n.tasks == s.tasks[id := t] && !t.Waiting?
    ensures Pins(n.promises, n.pinned) && TasksPinned(n) && Grown(s.promises, n.promises)
  {
    hide Pins;
  }

  predicate Signs(s: State, a: Action)
    requires Enabled(s, a)
  {
    a.Settle? || a.Wake? || a.Retry? || (a.CheckReserved? && Reserved(s, s.tasks[a.id].c).None?)
  }

  lemma OtherStepPins(attempts: nat, s: State, a: Action)
    requires Pins(s.promises, s.pinned) && TasksPinned(s)
    requires Enabled(s, a) && !Signs(s, a)
    ensures var n := Next(attempts, s, a);
      Pins(n.promises, n.pinned) && TasksPinned(n) && Grown(s.promises, n.promises)
  {
    hide Pins, TasksPinned, Grown, Find, HasHash, Without, Known, Awake, BeginSend;
    var n := Next(attempts, s, a);
    if a.Leave? {
      assert n.tasks == s.tasks[a.id := s.tasks[a.id]];
      MovePins(s, n, a.id, s.tasks[a.id]);
    } else {
      MovePins(s, n, a.id, n.tasks[a.id]);
    }
  }

  lemma StepPins(attempts: nat, s: State, a: Action)
    requires Pins(s.promises, s.pinned) && TasksPinned(s)
    requires Enabled(s, a)
    ensures var n := Next(attempts, s, a);
      Pins(n.promises, n.pinned) && TasksPinned(n) && Grown(s.promises, n.promises)
  {
    hide Pins, TasksPinned, Grown, Find, HasHash, Without, Known, Awake, BeginSend;
    if !Signs(s, a) { OtherStepPins(attempts, s, a); }
    else {
      match a
      case CheckReserved(id) => BeginSendPins(s, id, s.tasks[id].c, 1);
      case Settle(p, signed) => SettlePins(s, p, signed);
      case Wake(id) => AwakePins(attempts, s, id);
      case Retry(id) => BeginSendPins(s, id, s.tasks[id].c, s.tasks[id].attempt);
    }
  }

  // ---------------------------------------------------------------- where a recorded hash comes from

  predicate Inherited(left: Legacy, c: Checkpoint, h: Hash)
  {
    Record(c, h) in left.rows || Record(c, h) in left.sidecar
  }

  predicate Sourced(left: Legacy, promises: seq<Promise>, c: Checkpoint, h: Hash)
  {
    Minted(promises, c, h.bytes) || Inherited(left, c, h)
  }

  predicate RecordsSourced(left: Legacy, promises: seq<Promise>, records: seq<Record>)
  {
    forall r <- records :: Sourced(left, promises, r.checkpoint, r.hash)
  }

  predicate ReservationsSourced(left: Legacy, promises: seq<Promise>, reservations: map<Checkpoint, Hash>)
  {
    forall c <- reservations :: Sourced(left, promises, c, reservations[c])
  }

  predicate TaskSourced(left: Legacy, promises: seq<Promise>, t: Task)
  {
    match t
    case Broadcasting(c, bytes, _) => Minted(promises, c, bytes)
    case LookingUp(c, bytes, _) => Minted(promises, c, bytes)
    case Sent(c, h) => Sourced(left, promises, c, h)
    case Submitted(c, h) => Sourced(left, promises, c, h)
    case Polling(c, h) => Sourced(left, promises, c, h)
    case FinalReading(c, h) => Sourced(left, promises, c, h)
    case Inserting(c, h) => Sourced(left, promises, c, h)
    case Clearing(c, h) => Sourced(left, promises, c, h)
    case Settled(c, h) => Sourced(left, promises, c, h)
    case _ => true
  }

  predicate TasksSourced(left: Legacy, promises: seq<Promise>, tasks: map<TaskId, Task>)
  {
    forall id <- tasks :: TaskSourced(left, promises, tasks[id])
  }

  predicate BroadcastsMinted(promises: seq<Promise>, broadcasts: seq<Bytes>)
  {
    forall b <- broadcasts :: Minted(promises, b.checkpoint, b)
  }

  ghost predicate AllSourced(left: Legacy, s: State)
  {
    && RecordsSourced(left, s.promises, s.rows) && RecordsSourced(left, s.promises, s.sidecar)
    && ReservationsSourced(left, s.promises, s.reservations)
    && TasksSourced(left, s.promises, s.tasks) && BroadcastsMinted(s.promises, s.broadcasts)
  }

  lemma SourcedStays(left: Legacy, before: seq<Promise>, after: seq<Promise>, c: Checkpoint, h: Hash)
    requires Grown(before, after) && Sourced(left, before, c, h)
    ensures Sourced(left, after, c, h)
  {
    hide Grown;
    if Minted(before, c, h.bytes) { MintedStays(before, after, c, h.bytes); }
  }

  lemma TaskSourcedStays(left: Legacy, before: seq<Promise>, after: seq<Promise>, t: Task)
    requires Grown(before, after) && TaskSourced(left, before, t)
    ensures TaskSourced(left, after, t)
  {
    hide Grown, Sourced, Minted;
    if t.Broadcasting? || t.LookingUp? { MintedStays(before, after, t.c, t.bytes); }
    else if t.Sent? || t.Submitted? || t.Polling? || t.FinalReading? || t.Inserting? || t.Clearing? || t.Settled? {
      SourcedStays(left, before, after, t.c, t.hash);
    }
  }

  /** Growing the list of signings takes no source away. */
  lemma AllSourcedStays(left: Legacy, s: State, after: seq<Promise>)
    requires AllSourced(left, s) && Grown(s.promises, after)
    ensures AllSourced(left, s.(promises := after))
  {
    hide Grown, Sourced, Minted, TaskSourced;
    forall r <- s.rows + s.sidecar ensures Sourced(left, after, r.checkpoint, r.hash) {
      SourcedStays(left, s.promises, after, r.checkpoint, r.hash);
    }
    forall c <- s.reservations ensures Sourced(left, after, c, s.reservations[c]) {
      SourcedStays(left, s.promises, after, c, s.reservations[c]);
    }
    forall id <- s.tasks ensures TaskSourced(left, after, s.tasks[id]) {
      TaskSourcedStays(left, s.promises, after, s.tasks[id]);
    }
    forall b <- s.broadcasts ensures Minted(after, b.checkpoint, b) {
      MintedStays(s.promises, after, b.checkpoint, b);
    }
    assert forall r <- s.rows :: r in s.rows + s.sidecar;
    assert forall r <- s.sidecar :: r in s.rows + s.sidecar;
  }

  lemma FindIsRecord(records: seq<Record>, c: Checkpoint)
    ensures Find(records, c).Some? ==> Record(c, Find(records, c).value) in records
    ensures (exists r <- records :: r.checkpoint == c) ==> Find(records, c).Some?
  {
    if records != [] { FindIsRecord(records[1..], c); }
  }

  lemma WithoutKeeps(records: seq<Record>, h: Hash, r: Record)
    ensures r in Without(records, h) <==> r in records && r.hash != h
  {
    if records != [] {
      assert records == [records[0]] + records[1..];
      WithoutKeeps(records[1..], h, r);
    }
  }

  lemma BeginSendSourced(left: Legacy, s: State, id: TaskId, c: Checkpoint, attempt: nat)
    requires AllSourced(left, s) && Grown(s.promises, BeginSend(s, id, c, attempt).promises)
    ensures AllSourced(left, BeginSend(s, id, c, attempt))
  {
    hide Grown, Sourced, Minted;
    var n := BeginSend(s, id, c, attempt);
    AllSourcedStays(left, s, n.promises);
    var m := s.(promises := n.promises);
    assert n.tasks == m.tasks[id := n.tasks[id]];
  }

  lemma AwokenBytesMinted(s: State, id: TaskId)
    requires Pins(s.promises, s.pinned) && TasksPinned(s) && Enabled(s, Wake(id))
    ensures var t := s.tasks[id]; var status := s.promises[t.promise].status;
      status.Resolved? ==> Minted(s.promises, t.c, status.bytes) && status.bytes.checkpoint == t.c
  {
    var t := s.tasks[id];
    assert TaskPinned(s.promises, id, t);
    assert s.promises[t.promise] in s.promises;
  }

  lemma AwakeSourced(left: Legacy, attempts: nat, s: State, id: TaskId)
    requires AllSourced(left, s) && Pins(s.promises, s.pinned) && TasksPinned(s)
    requires Enabled(s, Wake(id)) && Grown(s.promises, Awake(attempts, s, id).promises)
    ensures AllSourced(left, Awake(attempts, s, id))
  {
    if s.promises[s.tasks[id].promise].status.Resolved? {
      hide Grown, Pins, TasksPinned, AllSourced;
      AwokenBytesMinted(s, id);
      BroadcastSourced(left, attempts, s, id);
    } else {
      hide Grown, Pins, TasksPinned, AllSourced;
      ThrownSourced(left, attempts, s, id);
    }
  }

  lemma BroadcastSourced(left: Legacy, attempts: nat, s: State, id: TaskId)
    requires AllSourced(left, s) && Enabled(s, Wake(id))
    requires var t := s.tasks[id]; var status := s.promises[t.promise].status;
      status.Resolved? && Minted(s.promises, t.c, status.bytes) && status.bytes.checkpoint == t.c
    ensures AllSourced(left, Awake(attempts, s, id))
  {
    hide Sourced, Minted, RecordsSourced, ReservationsSourced, TasksSourced;
    TasksSourcedMove(left, s.promises, s.tasks, id, Awake(attempts, s, id).tasks[id]);
  }

  lemma ThrownSourced(left: Legacy, attempts: nat, s: State, id: TaskId)
    requires AllSourced(left, s) && Enabled(s, Wake(id)) && s.promises[s.tasks[id].promise].status.Rejected?
    requires Grown(s.promises, Awake(attempts, s, id).promises)
    ensures AllSourced(left, Awake(attempts, s, id))
  {
    hide Grown, Sourced, Minted, RecordsSourced, ReservationsSourced, TasksSourced, BroadcastsMinted;
    var n := Awake(attempts, s, id);
    AllSourcedStays(left, s, n.promises);
    TasksSourcedMove(left, n.promises, s.tasks, id, n.tasks[id]);
  }

  lemma ReserveSourced(left: Legacy, s: State, id: TaskId)
    requires AllSourced(left, s) && Enabled(s, Reserve(id))
    ensures AllSourced(left, Next(0, s, Reserve(id)))
  {
    hide Sourced, Minted;
    var t := s.tasks[id];
    var n := Next(0, s, Reserve(id));
    assert TaskSourced(left, s.promises, t);
    forall r <- n.sidecar ensures Sourced(left, s.promises, r.checkpoint, r.hash) {
      if r != Record(t.c, t.hash) { WithoutKeeps(s.sidecar, t.hash, r); }
    }
  }

  lemma ClearSourced(left: Legacy, s: State, id: TaskId)
    requires AllSourced(left, s) && Enabled(s, Clear(id))
    ensures AllSourced(left, Next(0, s, Clear(id)))
  {
    hide Sourced, Minted;
    var t := s.tasks[id];
    var n := Next(0, s, Clear(id));
    assert TaskSourced(left, s.promises, t);
    forall r <- n.sidecar ensures Sourced(left, s.promises, r.checkpoint, r.hash) {
      WithoutKeeps(s.sidecar, t.hash, r);
    }
  }

  lemma InsertSourced(left: Legacy, s: State, id: TaskId)
    requires AllSourced(left, s) && Enabled(s, Insert(id))
    ensures AllSourced(left, Next(0, s, Insert(id)))
  {
    hide Sourced, Minted, HasHash;
    var t := s.tasks[id];
    assert TaskSourced(left, s.promises, t);
    if !HasHash(s.rows, t.hash) {
      var n := Next(0, s, Insert(id));
      forall r <- n.rows ensures Sourced(left, s.promises, r.checkpoint, r.hash) {
        if r != Record(t.c, t.hash) { assert r in s.rows; }
      }
    }
  }

  /** A hash read back from the rows, the sidecar or the reservations is a recorded one. */
  lemma LookupSourced(left: Legacy, s: State, c: Checkpoint)
    requires AllSourced(left, s)
    ensures Find(s.rows, c).Some? ==> Sourced(left, s.promises, c, Find(s.rows, c).value)
    ensures Reserved(s, c).Some? ==> Sourced(left, s.promises, c, Reserved(s, c).value)
  {
    hide Sourced;
    FindIsRecord(s.rows, c);
    FindIsRecord(s.sidecar, c);
  }

  lemma KnownSourced(left: Legacy, s: State, c: Checkpoint, h: Hash)
    requires AllSourced(left, s) && Known(s, c, h)
    ensures Sourced(left, s.promises, c, h)
  {
    hide Sourced;
    if Record(c, h) !in s.sidecar {
      var id :| id in s.tasks && s.tasks[id] == Submitted(c, h);
      assert TaskSourced(left, s.promises, s.tasks[id]);
    }
  }

  lemma TasksSourcedMove(left: Legacy, promises: seq<Promise>, tasks: map<TaskId, Task>, id: TaskId, t: Task)
    requires TasksSourced(left, promises, tasks) && TaskSourced(left, promises, t)
    ensures TasksSourced(left, promises, tasks[id := t])
  {
    hide TaskSourced;
  }

  lemma FoundSourced(left: Legacy, s: State, a: Action)
    requires AllSourced(left, s) && Enabled(s, a)
    requires a.StartConfirm? || a.ReadRows? || (a.CheckReserved? && !Signs(s, a))
    ensures AllSourced(left, Next(0, s, a))
  {
    hide Sourced, RecordsSourced, ReservationsSourced, TasksSourced, BroadcastsMinted, Find, Reserved, Known;
    if a.StartConfirm? { KnownSourced(left, s, a.c, a.hash); }
    else { LookupSourced(left, s, s.tasks[a.id].c); }
    TasksSourcedMove(left, s.promises, s.tasks, a.id, Next(0, s, a).tasks[a.id]);
  }

  lemma QuietStepSourced(left: Legacy, attempts: nat, s: State, a: Action)
    requires AllSourced(left, s) && Enabled(s, a) && (a.StartSubmit? || a.Leave? || a.JoinDone?)
    ensures AllSourced(left, Next(attempts, s, a))
  {
    hide Sourced, RecordsSourced, ReservationsSourced, BroadcastsMinted;
  }

  lemma StageSourced(left: Legacy, attempts: nat, s: State, a: Action)
    requires AllSourced(left, s) && Enabled(s, a)
    requires a.BroadcastDone? || a.LookupDone? || a.Decide? || a.FinalRead?
    ensures AllSourced(left, Next(attempts, s, a))
  {
    hide RecordsSourced, ReservationsSourced, BroadcastsMinted, HasHash, Minted, Inherited;
    assert TaskSourced(left, s.promises, s.tasks[a.id]);
    hide TasksSourced;
    TasksSourcedMove(left, s.promises, s.tasks, a.id, Next(attempts, s, a).tasks[a.id]);
  }

  lemma StepSourced(left: Legacy, attempts: nat, s: State, a: Action)
    requires AllSourced(left, s) && Pins(s.promises, s.pinned) && TasksPinned(s) && Enabled(s, a)
    ensures AllSourced(left, Next(attempts, s, a))
  {
    hide Pins, TasksPinned, Grown, Find, HasHash, Without, Known, Awake, BeginSend, AllSourced, Reserved;
    StepPins(attempts, s, a);
    match a
    case CheckReserved(id) =>
      if Signs(s, a) { BeginSendSourced(left, s, id, s.tasks[id].c, 1); } else { FoundSourced(left, s, a); }
    case Settle(p, signed) => AllSourcedStays(left, s, Next(attempts, s, a).promises);
    case Wake(id) => AwakeSourced(left, attempts, s, id);
    case Retry(id) => BeginSendSourced(left, s, id, s.tasks[id].c, s.tasks[id].attempt);
    case Reserve(id) => ReserveSourced(left, s, id);
    case Insert(id) => InsertSourced(left, s, id);
    case Clear(id) => ClearSourced(left, s, id);
    case StartConfirm(_, _, _) => FoundSourced(left, s, a);
    case ReadRows(_) => FoundSourced(left, s, a);
    case StartSubmit(_, _) => QuietStepSourced(left, attempts, s, a);
    case Leave(_) => QuietStepSourced(left, attempts, s, a);
    case JoinDone(_) => QuietStepSourced(left, attempts, s, a);
    case _ => StageSourced(left, attempts, s, a);
  }

  // ---------------------------------------------------------------- a stored row keeps its checkpoint quiet

  /** Past the reading of the rows, on the way to a broadcast. */
  predicate Sending(t: Task)
  {
    t.CheckingReserved? || t.Waiting? || t.Sleeping? || t.Broadcasting? || t.LookingUp?
  }

  ghost predicate Quiet(s: State, c: Checkpoint)
  {
    && Find(s.rows, c).Some?
    && (forall p <- s.promises :: p.checkpoint != c)
    && (forall id <- s.tasks :: Sending(s.tasks[id]) ==> s.tasks[id].c != c)
  }

  lemma FindInPrefix(records: seq<Record>, more: seq<Record>, c: Checkpoint)
    requires Find(records, c).Some?
    ensures Find(records + more, c) == Find(records, c)
  {
    assert (records + more)[1..] == records[1..] + more;
  }

  lemma SendingStepQuiet(attempts: nat, s: State, a: Action, c: Checkpoint)
    requires Quiet(s, c) && TasksPinned(s) && Enabled(s, a)
    requires a.CheckReserved? || a.Settle? || a.Wake? || a.Retry?
    ensures Quiet(Next(attempts, s, a), c)
  {
    hide Find, HasHash, Known, Without;
    if a.Wake? { assert TaskPinned(s.promises, a.id, s.tasks[a.id]); }
  }

  /** Rows only grow, no signing starts, and what moves is not on its way to a broadcast for c. */
  lemma MoveQuiet(s: State, n: State, c: Checkpoint, id: TaskId, t: Task, more: seq<Record>)
    requires Quiet(s, c) && n.promises == s.promises && n.rows == s.rows + more
    requires n.tasks == s.tasks[id := t] && (Sending(t) ==> t.c != c)
    ensures Quiet(n, c)
  {
    hide Find, Sending;
    FindInPrefix(s.rows, more, c);
  }

  /** The other steps move one task and sign nothing. */
  lemma MovedTask(attempts: nat, s: State, a: Action)
    requires Enabled(s, a) && !a.Settle? && !a.CheckReserved? && !a.Wake? && !a.Retry?
    ensures var n := Next(attempts, s, a);
      && n.promises == s.promises
      && a.id in n.tasks && n.tasks == s.tasks[a.id := n.tasks[a.id]]
  {
    hide HasHash, Known, Without, Find, Reserved;
  }

  /** A submission that reads the rows of c finds one. */
  lemma MovedQuietly(attempts: nat, s: State, a: Action, c: Checkpoint)
    requires Quiet(s, c) && Enabled(s, a) && !a.Settle? && !a.CheckReserved? && !a.Wake? && !a.Retry?
    requires a.id in Next(attempts, s, a).tasks && Sending(Next(attempts, s, a).tasks[a.id])
    ensures Next(attempts, s, a).tasks[a.id].c != c
  {
    hide HasHash, Known, Without, Find, Reserved;
  }

  lemma RowsOnlyGrow(attempts: nat, s: State, a: Action) returns (more: seq<Record>)
    requires Enabled(s, a)
    ensures Next(attempts, s, a).rows == s.rows + more
  {
    hide HasHash, Known, Without, Find, Reserved, Awake, BeginSend;
    assert s.rows + [] == s.rows;
    if a.Insert? {
      more := if HasHash(s.rows, s.tasks[a.id].hash) then [] else [Record(s.tasks[a.id].c, s.tasks[a.id].hash)];
    } else {
      more := [];
      hide *;
      NoInsertKeepsRows(attempts, s, a);
    }
  }

  lemma NoInsertKeepsRows(attempts: nat, s: State, a: Action)
    requires Enabled(s, a) && !a.Insert?
    ensures Next(attempts, s, a).rows == s.rows
  {
    hide HasHash, Known, Without, Find, Reserved;
  }

  lemma StepQuiet(attempts: nat, s: State, a: Action, c: Checkpoint)
    requires Quiet(s, c) && TasksPinned(s) && Enabled(s, a)
    ensures Quiet(Next(attempts, s, a), c)
  {
    hide Quiet, TasksPinned, Enabled, Next;
    if a.CheckReserved? || a.Settle? || a.Wake? || a.Retry? {
      SendingStepQuiet(attempts, s, a, c);
    } else {
      MovedTask(attempts, s, a);
      var more := RowsOnlyGrow(attempts, s, a);
      var n := Next(attempts, s, a);
      if Sending(n.tasks[a.id]) { MovedQuietly(attempts, s, a, c); }
      MoveQuiet(s, n, c, a.id, n.tasks[a.id], more);
    }
  }

  // ---------------------------------------------------------------- whole runs

  ghost predicate Inv(left: Legacy, s: State)
  {
    && Pins(s.promises, s.pinned) && TasksPinned(s) && AllSourced(left, s)
    && (forall c :: Find(left.rows, c).Some? ==> Quiet(s, c))
  }

  lemma BootInv(left: Legacy)
    ensures Inv(left, Boot(left))
  {
    hide Find;
    forall r <- left.rows ensures Inherited(left, r.checkpoint, r.hash) {
      assert Record(r.checkpoint, r.hash) == r;
    }
    forall r <- left.sidecar ensures Inherited(left, r.checkpoint, r.hash) {
      assert Record(r.checkpoint, r.hash) == r;
    }
  }

  lemma StepInv(left: Legacy, attempts: nat, s: State, a: Action)
    requires Inv(left, s)
    ensures Inv(left, Step(attempts, s, a)) && Grown(s.promises, Step(attempts, s, a).promises)
  {
    hide Pins, TasksPinned, AllSourced, Quiet, Find, Enabled, Next;
    if Enabled(s, a) {
      StepPins(attempts, s, a);
      StepSourced(left, attempts, s, a);
      forall c | Find(left.rows, c).Some? ensures Quiet(Next(attempts, s, a), c) {
        StepQuiet(attempts, s, a, c);
      }
    }
  }

  lemma GrownTrans(a: seq<Promise>, b: seq<Promise>, c: seq<Promise>)
    requires Grown(a, b) && Grown(b, c)
    ensures Grown(a, c)
  {
  }

  lemma {:induction false} RunInv(left: Legacy, attempts: nat, s: State, actions: seq<Action>)
    requires Inv(left, s)
    ensures Inv(left, Run(attempts, s, actions))
    ensures Grown(s.promises, Run(attempts, s, actions).promises)
    decreases |actions|
  {
    hide Inv, Step;
    if actions != [] {
      var n := Step(attempts, s, actions[0]);
      StepInv(left, attempts, s, actions[0]);
      RunInv(left, attempts, n, actions[1..]);
      GrownTrans(s.promises, n.promises, Run(attempts, s, actions).promises);
    }
  }

  lemma {:induction false} RunConcat(attempts: nat, s: State, first: seq<Action>, second: seq<Action>)
    ensures Run(attempts, s, first + second) == Run(attempts, Run(attempts, s, first), second)
    decreases |first|
  {
    hide Step;
    if first == [] {
      assert first + second == second;
    } else {
      assert (first + second)[1..] == first[1..] + second;
      RunConcat(attempts, Step(attempts, s, first[0]), first[1..], second);
    }
  }

  /** However sends and confirmations interleave and whatever fails, every broadcast for one checkpoint
      carries the same bytes. */
  lemma BroadcastsAreIdentical(left: Legacy, attempts: nat, actions: seq<Action>)
    ensures var s := Run(attempts, Boot(left), actions);
      forall a, b :: a in s.broadcasts && b in s.broadcasts && a.checkpoint == b.checkpoint ==> a == b
  {
    hide Pins, TasksPinned, Run, Boot, Minted, RecordsSourced, ReservationsSourced, TasksSourced, Find, Quiet;
    BootInv(left);
    RunInv(left, attempts, Boot(left), actions);
    var s := Run(attempts, Boot(left), actions);
    forall a, b | a in s.broadcasts && b in s.broadcasts && a.checkpoint == b.checkpoint ensures a == b {
      MintedOnce(s.promises, s.pinned, a.checkpoint, a, b);
    }
  }

  /** The state names the hash for the checkpoint: stored, pending, reserved or broadcast. */
  predicate Names(s: State, c: Checkpoint, h: Hash)
  {
    || Record(c, h) in s.rows || Record(c, h) in s.sidecar
    || (c in s.reservations && s.reservations[c] == h)
    || exists b <- s.broadcasts :: b.checkpoint == c && Keccak(b) == h
  }

  /** What the process inherits for a checkpoint is one hash at most, and a pending entry has its row. */
  ghost predicate Coherent(left: Legacy, c: Checkpoint)
  {
    && (forall h, k :: Inherited(left, c, h) && Inherited(left, c, k) ==> h == k)
    && (Find(left.sidecar, c).Some? ==> Find(left.rows, c).Some?)
  }

  /** At any two moments of one run the checkpoint has the same hash. */
  ghost predicate NamesOne(attempts: nat, left: Legacy, c: Checkpoint, first: seq<Action>, more: seq<Action>)
  {
    var early := Run(attempts, Boot(left), first);
    var late := Run(attempts, early, more);
    forall h, k :: Names(early, c, h) && Names(late, c, k) ==> h == k
  }

  lemma NamedIsSourced(left: Legacy, s: State, c: Checkpoint, h: Hash)
    requires Inv(left, s) && Names(s, c, h)
    ensures Sourced(left, s.promises, c, h)
  {
    hide Pins, TasksPinned, TasksSourced, Find, Quiet, Minted, Inherited;
  }

  lemma CoherentNamesOne(attempts: nat, left: Legacy, c: Checkpoint, first: seq<Action>, more: seq<Action>)
    requires Coherent(left, c)
    ensures NamesOne(attempts, left, c, first, more)
  {
    hide Pins, TasksPinned, AllSourced, Find, Run, Boot, Names, Minted, Grown;
    BootInv(left);
    RunInv(left, attempts, Boot(left), first);
    var early := Run(attempts, Boot(left), first);
    RunInv(left, attempts, early, more);
    var late := Run(attempts, early, more);
    forall h, k | Names(early, c, h) && Names(late, c, k) ensures h == k {
      NamedIsSourced(left, early, c, h);
      NamedIsSourced(left, late, c, k);
      SourcedStays(left, early.promises, late.promises, c, h);
      CoherentSources(left, late, c, h, k);
    }
  }

  lemma CoherentSources(left: Legacy, s: State, c: Checkpoint, h: Hash, k: Hash)
    requires Coherent(left, c) && Inv(left, s)
    requires Sourced(left, s.promises, c, h) && Sourced(left, s.promises, c, k)
    ensures h == k
  {
    hide Pins, TasksPinned, AllSourced, Find;
    if Find(left.rows, c).Some? {
      assert Quiet(s, c);
      assert !Minted(s.promises, c, h.bytes) && !Minted(s.promises, c, k.bytes);
    } else {
      hide Quiet, Minted;
      FindIsRecord(left.rows, c);
      FindIsRecord(left.sidecar, c);
      MintedOnce(s.promises, s.pinned, c, h.bytes, k.bytes);
    }
  }

  // ---------------------------------------------------------------- what one submission comes to

  /** The submission waits for a signing it has started and that is still pending. */
  predicate AwaitsSigning(s: State, id: TaskId, c: Checkpoint, attempt: nat)
  {
    && id in s.tasks && s.tasks[id].Waiting? && s.tasks[id].c == c && s.tasks[id].attempt == attempt
    && s.tasks[id].promise < |s.promises|
    && s.promises[s.tasks[id].promise] == Promise(c, id, Pending, false)
    && c in s.pinned && s.pinned[c] == s.tasks[id].promise
  }

  /** What is kept of a checkpoint, and what went out. */
  predicate SameRecords(s: State, t: State)
  {
    && t.rows == s.rows && t.sidecar == s.sidecar && t.reservations == s.reservations && t.inFlight == s.inFlight
    && t.broadcasts == s.broadcasts
  }

  lemma ThreeActions(attempts: nat, s: State, a: Action, b: Action, c: Action)
    ensures Run(attempts, s, [a, b, c]) == Step(attempts, Step(attempts, Step(attempts, s, a), b), c)
  {
    hide Step;
    RunCons(attempts, s, a, [b, c]);
    RunCons(attempts, Step(attempts, s, a), b, [c]);
    RunCons(attempts, Step(attempts, Step(attempts, s, a), b), c, []);
    assert [a] + [b, c] == [a, b, c] && [b] + [c] == [b, c] && [c] + [] == [c];
  }

  /** A submission without a row, a reservation, an entry or a signing to share starts its first signing. */
  lemma SubmissionStartsSigning(attempts: nat, s: State, id: TaskId, c: Checkpoint)
    requires id !in s.tasks && c !in s.inFlight && c !in s.pinned
    requires Find(s.rows, c).None? && Reserved(s, c).None?
    ensures AwaitsSigning(Run(attempts, s, [StartSubmit(id, c), ReadRows(id), CheckReserved(id)]), id, c, 1)
  {
    hide Run, Find;
    ThreeActions(attempts, s, StartSubmit(id, c), ReadRows(id), CheckReserved(id));
  }

  /** A signing that fails is started afresh while attempts remain, and nothing goes out meanwhile. */
  lemma FailedSigningIsRetried(attempts: nat, s: State, id: TaskId, c: Checkpoint, attempt: nat)
    requires AwaitsSigning(s, id, c, attempt) && attempt < attempts
    ensures var t := Run(attempts, s, [Settle(s.tasks[id].promise, None), Wake(id), Retry(id)]);
      AwaitsSigning(t, id, c, attempt + 1) && SameRecords(s, t)
  {
    hide Run;
    ThreeActions(attempts, s, Settle(s.tasks[id].promise, None), Wake(id), Retry(id));
  }

  /** The last failure ends the submission. */
  lemma LastFailureEnds(attempts: nat, s: State, id: TaskId, c: Checkpoint, attempt: nat)
    requires AwaitsSigning(s, id, c, attempt) && attempts <= attempt
    ensures var t := Run(attempts, s, [Settle(s.tasks[id].promise, None), Wake(id), Retry(id)]);
      id in t.tasks && t.tasks[id] == Failed(c) && SameRecords(s, t) && c !in t.pinned
  {
    hide Run;
    ThreeActions(attempts, s, Settle(s.tasks[id].promise, None), Wake(id), Retry(id));
  }

  /** A signing that comes through is broadcast, and the hash of its bytes is reserved, put into the
      sidecar, and the answer. */
  lemma SuccessfulSigningIsSubmitted(attempts: nat, s: State, id: TaskId, c: Checkpoint, attempt: nat,
                                     nonce: nat, fees: nat)
    requires AwaitsSigning(s, id, c, attempt)
    ensures var bytes := Signed(c, nonce, fees);
      var t := Run(attempts, Run(attempts, s, [Settle(s.tasks[id].promise, Some((nonce, fees))), Wake(id),
                                               BroadcastDone(id, true)]), [Reserve(id)]);
      && t.broadcasts == s.broadcasts + [bytes] && id in t.tasks && t.tasks[id] == Submitted(c, Keccak(bytes))
      && t.reservations == s.reservations[c := Keccak(bytes)] && Record(c, Keccak(bytes)) in t.sidecar
      && t.rows == s.rows && t.inFlight == s.inFlight
  {
    hide Run, Without;
    var signed := Settle(s.tasks[id].promise, Some((nonce, fees)));
    ThreeActions(attempts, s, signed, Wake(id), BroadcastDone(id, true));
    var u := Run(attempts, s, [signed, Wake(id), BroadcastDone(id, true)]);
    RunCons(attempts, u, Reserve(id), []);
    assert [Reserve(id)] + [] == [Reserve(id)];
    RunsNothing(attempts, Step(attempts, u, Reserve(id)));
  }

  /** However many signings fail, as long as an attempt is left: the submission can still come through,
      with one broadcast in all. */
  lemma {:induction false} SubmissionOutlastsFailures(attempts: nat, s: State, id: TaskId, c: Checkpoint,
                                                      attempt: nat, failures: nat, nonce: nat, fees: nat)
    returns (actions: seq<Action>)
    requires AwaitsSigning(s, id, c, attempt) && attempt + failures <= attempts
    ensures var t := Run(attempts, s, actions);
      && id in t.tasks && t.tasks[id] == Submitted(c, Keccak(Signed(c, nonce, fees)))
      && t.broadcasts == s.broadcasts + [Signed(c, nonce, fees)]
    decreases failures
  {
    hide Run, SameRecords;
    var p := s.tasks[id].promise;
    if failures == 0 {
      var first := [Settle(p, Some((nonce, fees))), Wake(id), BroadcastDone(id, true)];
      SuccessfulSigningIsSubmitted(attempts, s, id, c, attempt, nonce, fees);
      RunConcat(attempts, s, first, [Reserve(id)]);
      actions := first + [Reserve(id)];
    } else {
      var failed := [Settle(p, None), Wake(id), Retry(id)];
      FailedSigningIsRetried(attempts, s, id, c, attempt);
      SameBroadcasts(s, Run(attempts, s, failed));
      var more := SubmissionOutlastsFailures(attempts, Run(attempts, s, failed), id, c, attempt + 1, failures - 1,
                                             nonce, fees);
      RunConcat(attempts, s, failed, more);
      actions := failed + more;
    }
  }

  lemma SameBroadcasts(s: State, t: State)
    requires SameRecords(s, t)
    ensures t.broadcasts == s.broadcasts
  {
  }

  /** A broadcast whose answer is lost, but which the chain has seen, counts as sent. */
  lemma LostAnswerIsRecovered(attempts: nat, s: State, id: TaskId, c: Checkpoint, bytes: Bytes, attempt: nat)
    requires id in s.tasks && s.tasks[id] == Broadcasting(c, bytes, attempt)
    ensures var t := Run(attempts, s, [BroadcastDone(id, false), LookupDone(id, true), Reserve(id)]);
      && id in t.tasks && t.tasks[id] == Submitted(c, Keccak(bytes)) && t.broadcasts == s.broadcasts
      && t.reservations == s.reservations[c := Keccak(bytes)] && Record(c, Keccak(bytes)) in t.sidecar
  {
    hide Run, Without;
    ThreeActions(attempts, s, BroadcastDone(id, false), LookupDone(id, true), Reserve(id));
  }

  /** One the chain has not seen is sent again, with the same bytes. */
  lemma LostBroadcastIsRepeated(attempts: nat, s: State, id: TaskId, c: Checkpoint, bytes: Bytes, attempt: nat)
    requires id in s.tasks && s.tasks[id] == Broadcasting(c, bytes, attempt) && attempt < attempts
    requires c in s.pinned && s.pinned[c] < |s.promises| && s.promises[s.pinned[c]].status == Resolved(bytes)
    ensures var t := Step(attempts, Run(attempts, s, [BroadcastDone(id, false), LookupDone(id, false), Retry(id)]),
                          Wake(id));
      && id in t.tasks && t.tasks[id] == Broadcasting(c, bytes, attempt + 1)
      && t.broadcasts == s.broadcasts + [bytes]
  {
    hide Run;
    ThreeActions(attempts, s, BroadcastDone(id, false), LookupDone(id, false), Retry(id));
  }

  /** On its way to a submission of its own. */
  predicate UnderWay(t: Task)
  {
    t.ReadingRows? || t.CheckingReserved? || t.Waiting? || t.Broadcasting? || t.LookingUp? || t.Sleeping? || t.Sent?
  }

  /** Whoever is on its way is the one the others join. */
  ghost predicate Owned(s: State)
  {
    forall id <- s.tasks | UnderWay(s.tasks[id]) ::
      s.tasks[id].c in s.inFlight && s.inFlight[s.tasks[id].c] == id
  }

  lemma StepKeepsOwned(attempts: nat, s: State, a: Action)
    requires Owned(s)
    ensures Owned(Step(attempts, s, a))
  {
    hide Next, Enabled, Owned, Moved;
    if Enabled(s, a) {
      if a.StartSubmit? || a.Leave? || a.Settle? {
        EdgeKeepsOwned(attempts, s, a);
      } else {
        if a.CheckReserved? || a.Wake? || a.Retry? {
          SendMoves(attempts, s, a);
        } else if a.BroadcastDone? || a.LookupDone? || a.Reserve? || a.JoinDone? {
          SentMoves(attempts, s, a);
        } else {
          ReadMoves(attempts, s, a);
        }
        MovedKeepsOwned(s, Next(attempts, s, a), a.id);
      }
    }
  }

  lemma EdgeKeepsOwned(attempts: nat, s: State, a: Action)
    requires Owned(s) && Enabled(s, a) && (a.StartSubmit? || a.Leave? || a.Settle?)
    ensures Owned(Next(attempts, s, a))
  {
    hide Find, HasHash, Known, Without, Reserved;
  }

  /** These steps move one task, and put none on its way that was not. */
  ghost predicate Moved(s: State, n: State, id: TaskId)
  {
    && n.inFlight == s.inFlight && id in n.tasks && n.tasks == s.tasks[id := n.tasks[id]]
    && (UnderWay(n.tasks[id]) ==> id in s.tasks && UnderWay(s.tasks[id]) && n.tasks[id].c == s.tasks[id].c)
  }

  lemma SendMoves(attempts: nat, s: State, a: Action)
    requires Enabled(s, a) && (a.CheckReserved? || a.Wake? || a.Retry?)
    ensures Moved(s, Next(attempts, s, a), a.id)
  {
    hide Find, HasHash, Known, Without, Reserved;
  }

  lemma SentMoves(attempts: nat, s: State, a: Action)
    requires Enabled(s, a) && (a.BroadcastDone? || a.LookupDone? || a.Reserve? || a.JoinDone?)
    ensures Moved(s, Next(attempts, s, a), a.id)
  {
    hide Find, HasHash, Known, Without, Reserved, BeginSend, Awake;
  }

  lemma ReadMoves(attempts: nat, s: State, a: Action)
    requires Enabled(s, a) && (a.StartConfirm? || a.ReadRows? || a.Decide? || a.FinalRead? || a.Insert? || a.Clear?)
    ensures Moved(s, Next(attempts, s, a), a.id)
  {
    hide Find, HasHash, Known, Without, Reserved, BeginSend, Awake, AfterThrow;
  }

  lemma MovedKeepsOwned(s: State, n: State, id: TaskId)
    requires Owned(s) && Moved(s, n, id)
    ensures Owned(n)
  {
    hide UnderWay;
  }

  lemma {:induction false} RunIsOwned(attempts: nat, s: State, actions: seq<Action>)
    requires Owned(s)
    ensures Owned(Run(attempts, s, actions))
    decreases |actions|
  {
    hide Owned, Step;
    if actions != [] {
      StepKeepsOwned(attempts, s, actions[0]);
      RunIsOwned(attempts, Step(attempts, s, actions[0]), actions[1..]);
    }
  }

  /** Over every interleaving, at most one submission of a checkpoint is under way. */
  lemma OneSubmissionUnderWay(left: Legacy, attempts: nat, actions: seq<Action>, id: TaskId, other: TaskId)
    ensures var s := Run(attempts, Boot(left), actions);
      (&& id in s.tasks && other in s.tasks && UnderWay(s.tasks[id]) && UnderWay(s.tasks[other])
       && s.tasks[id].c == s.tasks[other].c) ==> id == other
  {
    NobodyAtBoot(left);
    hide Run, Boot;
    RunIsOwned(attempts, Boot(left), actions);
  }

  lemma NobodyAtBoot(left: Legacy)
    ensures Owned(Boot(left))
  {
  }

  /** A caller that comes while one is in flight waits for it and gets its answer; once that one has left,
      the next caller starts afresh. */
  lemma CallersShareAnswers(attempts: nat, s: State, id: TaskId, owner: TaskId, c: Checkpoint)
    requires id !in s.tasks && c in s.inFlight && s.inFlight[c] == owner && owner in s.tasks
    ensures var joined := Step(attempts, s, StartSubmit(id, c));
      && joined == s.(tasks := s.tasks[id := Joined(c, owner)])
      && ((s.tasks[owner].Submitted? || s.tasks[owner].Failed?) ==>
            Step(attempts, joined, JoinDone(id)) == s.(tasks := s.tasks[id := s.tasks[owner]]))
    ensures (s.tasks[owner].Submitted? || s.tasks[owner].Failed?) && s.tasks[owner].c == c ==>
      var left := Step(attempts, s, Leave(owner));
      && left == s.(inFlight := s.inFlight - {c})
      && Step(attempts, left, StartSubmit(id, c))
         == left.(inFlight := left.inFlight[c := id], tasks := s.tasks[id := ReadingRows(c)])
  {
    hide Find, HasHash, Known, Without, Reserved;
    assert s.tasks[id := Joined(c, owner)][id := s.tasks[owner]] == s.tasks[id := s.tasks[owner]];
  }

  /** Polling that runs out changes nothing but the caller's own state. */
  lemma GivingUpStoresNothing(attempts: nat, s: State, id: TaskId, c: Checkpoint, h: Hash)
    requires id in s.tasks && s.tasks[id] == Polling(c, h)
    ensures Step(attempts, s, Decide(id, false)) == s.(tasks := s.tasks[id := Settled(c, h)])
  {
    hide HasHash, Without, Find, Known;
  }

  lemma DecideStep(attempts: nat, s: State, id: TaskId, c: Checkpoint, h: Hash)
    requires id in s.tasks && s.tasks[id] == Polling(c, h)
    ensures Step(attempts, s, Decide(id, true)) == s.(tasks := s.tasks[id := FinalReading(c, h)])
  {
    hide HasHash, Without, Find, Known;
  }

  lemma FinalReadStep(attempts: nat, s: State, id: TaskId, c: Checkpoint, h: Hash)
    requires id in s.tasks && s.tasks[id] == FinalReading(c, h) && !HasHash(s.rows, h)
    ensures Step(attempts, s, FinalRead(id)) == s.(tasks := s.tasks[id := Inserting(c, h)])
  {
    hide HasHash, Without, Find, Known;
  }

  lemma InsertStep(attempts: nat, s: State, id: TaskId, c: Checkpoint, h: Hash)
    requires id in s.tasks && s.tasks[id] == Inserting(c, h) && !HasHash(s.rows, h)
    ensures Step(attempts, s, Insert(id))
         == s.(rows := s.rows + [Record(c, h)], tasks := s.tasks[id := Clearing(c, h)])
  {
    hide HasHash, Without, Find, Known;
  }

  lemma ClearStep(attempts: nat, s: State, id: TaskId, c: Checkpoint, h: Hash)
    requires id in s.tasks && s.tasks[id] == Clearing(c, h)
    ensures Step(attempts, s, Clear(id))
         == s.(reservations := s.reservations - {c}, sidecar := Without(s.sidecar, h),
               tasks := s.tasks[id := Settled(c, h)])
  {
    hide HasHash, Without, Find, Known;
  }

  /** A confirmation that decides stores one row for its hash before it drops the reservation and the entry. */
  lemma ConfirmationIsStored(attempts: nat, s: State, id: TaskId, c: Checkpoint, h: Hash)
    requires id in s.tasks && s.tasks[id] == Polling(c, h) && !HasHash(s.rows, h)
    ensures var u := Run(attempts, s, [Decide(id, true), FinalRead(id), Insert(id)]);
      var t := Step(attempts, u, Clear(id));
      && u.rows == s.rows + [Record(c, h)] && u.reservations == s.reservations && u.sidecar == s.sidecar
      && t == s.(rows := u.rows, reservations := s.reservations - {c}, sidecar := Without(s.sidecar, h),
                 tasks := s.tasks[id := Settled(c, h)])
  {
    hide *;
    ThreeActions(attempts, s, Decide(id, true), FinalRead(id), Insert(id));
    var s1 := Step(attempts, s, Decide(id, true));
    DecideStep(attempts, s, id, c, h);
    var s2 := Step(attempts, s1, FinalRead(id));
    FinalReadStep(attempts, s1, id, c, h);
    var s3 := Step(attempts, s2, Insert(id));
    InsertStep(attempts, s2, id, c, h);
    ClearStep(attempts, s3, id, c, h);
    assert s3.tasks[id := Settled(c, h)] == s.tasks[id := Settled(c, h)];
  }

  // ---------------------------------------------------------------- the condition is necessary

  /** A hash names the checkpoint of the bytes it was derived from. */
  predicate WellFormed(left: Legacy)
  {
    forall r <- left.rows + left.sidecar :: r.hash.bytes.checkpoint == r.checkpoint
  }

  lemma {:induction false} RunCons(attempts: nat, s: State, a: Action, rest: seq<Action>)
    ensures Run(attempts, s, [a] + rest) == Run(attempts, Step(attempts, s, a), rest)
  {
    hide Step;
    assert ([a] + rest)[1..] == rest;
  }

  /** A submission that found no row, about to look at the reservations. */
  lemma MissesRow(attempts: nat, s: State, c: Checkpoint)
    requires 0 !in s.tasks && c !in s.inFlight && Find(s.rows, c).None?
    ensures Run(attempts, s, [StartSubmit(0, c), ReadRows(0)])
         == s.(inFlight := s.inFlight[c := 0], tasks := s.tasks[0 := CheckingReserved(c)])
  {
    hide Find;
    var a := Step(attempts, s, StartSubmit(0, c));
    var b := Step(attempts, a, ReadRows(0));
    RunCons(attempts, s, StartSubmit(0, c), [ReadRows(0)]);
    RunCons(attempts, a, ReadRows(0), []);
    assert s.tasks[0 := ReadingRows(c)][0 := CheckingReserved(c)] == s.tasks[0 := CheckingReserved(c)];
  }

  lemma RunsNothing(attempts: nat, s: State)
    ensures Run(attempts, s, []) == s
  {
  }

  /** Five actions in a row. */
  lemma RunsFive(attempts: nat, s: State, a: Action, b: Action, c: Action, d: Action, e: Action)
    ensures Run(attempts, s, [a] + ([b] + ([c] + ([d] + ([e] + [])))))
         == Step(attempts, Step(attempts, Step(attempts, Step(attempts, Step(attempts, s, a), b), c), d), e)
  {
    hide Step, Run;
    var s1 := Step(attempts, s, a);
    var s2 := Step(attempts, s1, b);
    var s3 := Step(attempts, s2, c);
    var s4 := Step(attempts, s3, d);
    RunCons(attempts, s, a, [b] + ([c] + ([d] + ([e] + []))));
    RunCons(attempts, s1, b, [c] + ([d] + ([e] + [])));
    RunCons(attempts, s2, c, [d] + ([e] + []));
    RunCons(attempts, s3, d, [e] + []);
    RunCons(attempts, s4, e, []);
    RunsNothing(attempts, Step(attempts, s4, e));
  }

  function ConfirmSteps(c: Checkpoint, h: Hash): seq<Action>
  {
    [StartConfirm(1, c, h)] + ([Decide(1, true)] + ([FinalRead(1)] + ([Insert(1)] + ([Clear(1)] + []))))
  }

  lemma DecidesToInsert(attempts: nat, s: State, c: Checkpoint, h: Hash)
    requires 1 !in s.tasks && Record(c, h) in s.sidecar && !HasHash(s.rows, h)
    ensures Step(attempts, Step(attempts, Step(attempts, s, StartConfirm(1, c, h)), Decide(1, true)), FinalRead(1))
         == WithTask(s, 1, Inserting(c, h))
  {
    hide HasHash;
    var s1 := WithTask(s, 1, Polling(c, h));
    var s2 := WithTask(s, 1, FinalReading(c, h));
    assert s1.tasks[1 := FinalReading(c, h)] == s2.tasks;
    assert s2.tasks[1 := Inserting(c, h)] == s.tasks[1 := Inserting(c, h)];
  }

  lemma InsertsAndClears(attempts: nat, s: State, c: Checkpoint, h: Hash)
    requires 1 in s.tasks && s.tasks[1] == Inserting(c, h) && !HasHash(s.rows, h)
    ensures Step(attempts, Step(attempts, s, Insert(1)), Clear(1))
         == s.(rows := s.rows + [Record(c, h)], reservations := s.reservations - {c},
               sidecar := Without(s.sidecar, h), tasks := s.tasks[1 := Settled(c, h)])
  {
    hide HasHash, Without;
    assert s.tasks[1 := Clearing(c, h)][1 := Settled(c, h)] == s.tasks[1 := Settled(c, h)];
  }

  /** A confirmation of a pending entry that stores the row and clears the entry. */
  lemma Confirms(attempts: nat, s: State, c: Checkpoint, h: Hash)
    requires 1 !in s.tasks && Record(c, h) in s.sidecar && !HasHash(s.rows, h)
    ensures Run(attempts, s, ConfirmSteps(c, h))
         == s.(rows := s.rows + [Record(c, h)], reservations := s.reservations - {c},
               sidecar := Without(s.sidecar, h), tasks := s.tasks[1 := Settled(c, h)])
  {
    hide HasHash, Without, Run, Step;
    RunsFive(attempts, s, StartConfirm(1, c, h), Decide(1, true), FinalRead(1), Insert(1), Clear(1));
    DecidesToInsert(attempts, s, c, h);
    InsertsAndClears(attempts, WithTask(s, 1, Inserting(c, h)), c, h);
    assert s.tasks[1 := Inserting(c, h)][1 := Settled(c, h)] == s.tasks[1 := Settled(c, h)];
  }

  function SendSteps(promise: nat, nonce: nat): seq<Action>
  {
    [CheckReserved(0)] + ([Settle(promise, Some((nonce, 0)))] + ([Wake(0)] + ([BroadcastDone(0, true)]
      + ([Reserve(0)] + []))))
  }

  lemma Signing(attempts: nat, s: State, c: Checkpoint, nonce: nat)
    requires 0 in s.tasks && s.tasks[0] == CheckingReserved(c) && Reserved(s, c).None? && c !in s.pinned
    ensures var n := Step(attempts, Step(attempts, s, CheckReserved(0)), Settle(|s.promises|, Some((nonce, 0))));
      0 in n.tasks && n.tasks[0] == Waiting(c, |s.promises|, 1) && |s.promises| < |n.promises|
      && n.promises[|s.promises|].status == Resolved(Signed(c, nonce, 0)) && n.rows == s.rows
  {
    hide Reserved;
    var p := |s.promises|;
    var s1 := Step(attempts, s, CheckReserved(0));
    assert s1.tasks[0] == Waiting(c, p, 1) && s1.promises[p] == Promise(c, 0, Pending, false);
  }

  lemma Broadcasts(attempts: nat, s: State, c: Checkpoint, b: Bytes)
    requires 0 in s.tasks && s.tasks[0].Waiting? && s.tasks[0].c == c && s.tasks[0].promise < |s.promises|
    requires s.promises[s.tasks[0].promise].status == Resolved(b)
    ensures var n := Step(attempts, Step(attempts, s, Wake(0)), BroadcastDone(0, true));
      0 in n.tasks && n.tasks[0] == Sent(c, Keccak(b)) && n.rows == s.rows
  {
  }

  /** A submission that finds no reservation signs, broadcasts and reserves. */
  lemma Sends(attempts: nat, s: State, c: Checkpoint, nonce: nat)
    requires 0 in s.tasks && s.tasks[0] == CheckingReserved(c) && Reserved(s, c).None? && c !in s.pinned
    ensures var n := Run(attempts, s, SendSteps(|s.promises|, nonce)); var h := Keccak(Signed(c, nonce, 0));
      n.rows == s.rows && c in n.reservations && n.reservations[c] == h
  {
    hide Run, Without, Reserved, Step;
    var p := |s.promises|;
    RunsFive(attempts, s, CheckReserved(0), Settle(p, Some((nonce, 0))), Wake(0), BroadcastDone(0, true), Reserve(0));
    Signing(attempts, s, c, nonce);
    var s2 := Step(attempts, Step(attempts, s, CheckReserved(0)), Settle(p, Some((nonce, 0))));
    Broadcasts(attempts, s2, c, Signed(c, nonce, 0));
    var s4 := Step(attempts, Step(attempts, s2, Wake(0)), BroadcastDone(0, true));
    Reserves(attempts, s4, c, Keccak(Signed(c, nonce, 0)));
  }

  lemma Reserves(attempts: nat, s: State, c: Checkpoint, h: Hash)
    requires 0 in s.tasks && s.tasks[0] == Sent(c, h)
    ensures var n := Step(attempts, s, Reserve(0)); n.rows == s.rows && c in n.reservations && n.reservations[c] == h
  {
    hide Without;
  }

  /** A confirmation of an inherited entry that falls between a submission's two lookups: the submission
      misses both the row and the entry, and signs again. */
  function Overtaken(c: Checkpoint, h: Hash): seq<Action>
  {
    [StartSubmit(0, c), ReadRows(0)] + (ConfirmSteps(c, h) + SendSteps(0, h.bytes.nonce + 1))
  }

  lemma NoRowWithHash(left: Legacy, c: Checkpoint, h: Hash)
    requires WellFormed(left) && Find(left.rows, c).None? && h.bytes.checkpoint == c
    ensures !HasHash(left.rows, h)
  {
    FindIsRecord(left.rows, c);
    forall r <- left.rows ensures r.hash != h { assert r in left.rows + left.sidecar; }
  }

  lemma NoOtherPending(left: Legacy, c: Checkpoint, h: Hash)
    requires Record(c, h) in left.sidecar
    requires forall a, b :: Inherited(left, c, a) && Inherited(left, c, b) ==> a == b
    ensures Find(Without(left.sidecar, h), c).None?
  {
    var kept := Without(left.sidecar, h);
    FindIsRecord(kept, c);
    if Find(kept, c).Some? {
      var k := Find(kept, c).value;
      WithoutKeeps(left.sidecar, h, Record(c, k));
      assert Inherited(left, c, h) && Inherited(left, c, k);
    }
  }

  /** Where the overtaken submission stands once the confirmation has cleared the entry. */
  function Cleared(left: Legacy, c: Checkpoint, h: Hash): State
  {
    var s := Boot(left);
    s.(rows := left.rows + [Record(c, h)], sidecar := Without(left.sidecar, h), reservations := s.reservations - {c},
       inFlight := s.inFlight[c := 0], tasks := s.tasks[0 := CheckingReserved(c)][1 := Settled(c, h)])
  }

  lemma ClearedIsReached(attempts: nat, left: Legacy, c: Checkpoint, h: Hash)
    requires Find(left.rows, c).None? && Record(c, h) in left.sidecar && !HasHash(left.rows, h)
    ensures Run(attempts, Boot(left), [StartSubmit(0, c), ReadRows(0)] + ConfirmSteps(c, h)) == Cleared(left, c, h)
  {
    hide Run, Find, Without, HasHash, ConfirmSteps;
    var s := Boot(left);
    MissesRow(attempts, s, c);
    var s1 := s.(inFlight := s.inFlight[c := 0], tasks := s.tasks[0 := CheckingReserved(c)]);
    Confirms(attempts, s1, c, h);
    RunConcat(attempts, s, [StartSubmit(0, c), ReadRows(0)], ConfirmSteps(c, h));
  }

  lemma ClearedIsReady(left: Legacy, c: Checkpoint, h: Hash)
    requires Find(Without(left.sidecar, h), c).None?
    ensures var s := Cleared(left, c, h);
      && 0 in s.tasks && s.tasks[0] == CheckingReserved(c) && c !in s.pinned && s.promises == []
      && Reserved(s, c).None? && Record(c, h) in s.rows
  {
    hide Find, Without;
  }

  lemma OvertakenParts(c: Checkpoint, h: Hash)
    ensures Overtaken(c, h)
         == [StartSubmit(0, c), ReadRows(0)] + ConfirmSteps(c, h) + SendSteps(0, h.bytes.nonce + 1)
  {
    hide ConfirmSteps, SendSteps;
  }

  lemma OvertakenNamesTwo(attempts: nat, left: Legacy, c: Checkpoint, h: Hash)
    requires WellFormed(left) && Find(left.rows, c).None? && Find(left.sidecar, c) == Some(h)
    requires forall a, b :: Inherited(left, c, a) && Inherited(left, c, b) ==> a == b
    ensures !NamesOne(attempts, left, c, [], Overtaken(c, h))
  {
    FindIsRecord(left.sidecar, c);
    assert Record(c, h) in left.rows + left.sidecar;
    hide Run, Find, Without, HasHash, Inherited, WellFormed, SendSteps, ConfirmSteps, NamesOne, Cleared, Boot,
         Reserved;
    NoRowWithHash(left, c, h);
    NoOtherPending(left, c, h);
    ClearedIsReached(attempts, left, c, h);
    var cleared := Cleared(left, c, h);
    ClearedIsReady(left, c, h);
    Sends(attempts, cleared, c, h.bytes.nonce + 1);
    OvertakenParts(c, h);
    hide Overtaken;
    RunConcat(attempts, Boot(left), [StartSubmit(0, c), ReadRows(0)] + ConfirmSteps(c, h),
              SendSteps(0, h.bytes.nonce + 1));
    ReservedTwice(attempts, left, c, h, Run(attempts, Boot(left), Overtaken(c, h)));
  }

  lemma ReservedTwice(attempts: nat, left: Legacy, c: Checkpoint, h: Hash, n: State)
    requires Record(c, h) in left.sidecar && n == Run(attempts, Boot(left), Overtaken(c, h))
    requires c in n.reservations && n.reservations[c] != h
    ensures !NamesOne(attempts, left, c, [], Overtaken(c, h))
  {
    hide Overtaken, Run;
    RunsNothing(attempts, Boot(left));
    assert Names(Boot(left), c, h) && Names(n, c, n.reservations[c]);
  }

  /** One process never names two hashes for a checkpoint, in any run, exactly when what it inherited for
      that checkpoint is coherent. */
  lemma OneHashIffCoherent(attempts: nat, left: Legacy, c: Checkpoint)
    requires WellFormed(left)
    ensures Coherent(left, c) <==> forall first, more :: NamesOne(attempts, left, c, first, more)
  {
    hide NamesOne, WellFormed;
    if Coherent(left, c) {
      forall first, more ensures NamesOne(attempts, left, c, first, more) {
        CoherentNamesOne(attempts, left, c, first, more);
      }
    } else if h, k :| Inherited(left, c, h) && Inherited(left, c, k) && h != k {
      InheritedClash(attempts, left, c, h, k);
    } else {
      OvertakenNamesTwo(attempts, left, c, Find(left.sidecar, c).value);
    }
  }

  lemma InheritedClash(attempts: nat, left: Legacy, c: Checkpoint, h: Hash, k: Hash)
    requires Inherited(left, c, h) && Inherited(left, c, k) && h != k
    ensures !NamesOne(attempts, left, c, [], [])
  {
    RunsNothing(attempts, Boot(left));
    assert Names(Boot(left), c, h) && Names(Boot(left), c, k);
  }

  // ---------------------------------------------------------------- the transport object

  /** The pinning transport between two awaits. Each method is what runs without interruption, and does to
      the machine above, seen as `s`, what the corresponding step does. */
  class ViemChainTransport {
    var promises: seq<Promise>
    var pinned: map<Checkpoint, nat>
    var broadcasts: seq<Bytes>

    ghost predicate Valid()
      reads this
    {
      Pins(promises, pinned) && BroadcastsMinted(promises, broadcasts)
    }

    ghost predicate IsPartOf(s: State)
      reads this
    {
      promises == s.promises && pinned == s.pinned && broadcasts == s.broadcasts
    }

    constructor ()
      ensures Valid() && IsPartOf(Boot(Legacy([], [])))
    {
      promises, pinned, broadcasts := [], map[], [];
    }

    /** Look up the signing of this submission, or start one and pin it before anything is awaited. */
    method PinnedSubmission(caller: TaskId, c: Checkpoint, attempt: nat, ghost s: State) returns (p: nat)
      requires Valid() && IsPartOf(s)
      modifies this
      ensures Valid() && IsPartOf(BeginSend(s, caller, c, attempt))
      ensures BeginSend(s, caller, c, attempt).tasks[caller] == Waiting(c, p, attempt)
      ensures c in pinned && pinned[c] == p && (c in old(pinned) ==> promises == old(promises))
    {
      ghost var before := promises;
      if c in pinned { return pinned[c]; }
      p := |promises|;
      promises := promises + [Promise(c, caller, Pending, false)];
      pinned := pinned[c := p];
      assert forall k | 0 <= k < |before| :: promises[k] == before[k];
      forall b <- broadcasts ensures Minted(promises, b.checkpoint, b) {
        MintedStays(before, promises, b.checkpoint, b);
      }
    }

    /** The awaited signing has settled: broadcast its bytes, or throw and, if this caller started it, let
        the next attempt sign afresh. */
    method Resume(caller: TaskId, c: Checkpoint, p: nat, attempts: nat, ghost s: State) returns (sent: Option<Bytes>)
      requires Valid() && IsPartOf(s) && TasksPinned(s) && Enabled(s, Wake(caller))
      requires s.tasks[caller].c == c && s.tasks[caller].promise == p
      modifies this
      ensures Valid() && IsPartOf(Awake(attempts, s, caller))
      ensures sent.Some? <==> s.promises[p].status.Resolved?
      ensures sent.Some? ==> sent.value in broadcasts && sent.value.checkpoint == c
      ensures sent.Some? ==> forall b <- broadcasts :: b.checkpoint == c ==> b == sent.value
    {
      ghost var before := promises;
      AwakePins(attempts, s, caller);
      AwokenBytesMinted(s, caller);
      hide Pins, TasksPinned, Minted;
      var promise := promises[p];
      if promise.status.Resolved? {
        broadcasts := broadcasts + [promise.status.bytes];
        forall b | b in broadcasts && b.checkpoint == c ensures b == promise.status.bytes {
          MintedOnce(promises, pinned, c, b, promise.status.bytes);
        }
        return Some(promise.status.bytes);
      }
      if promise.initiator == caller {
        pinned := pinned - {c};
        promises := promises[p := promise.(dropped := true)];
        forall b <- broadcasts ensures Minted(promises, b.checkpoint, b) {
          MintedStays(before, promises, b.checkpoint, b);
        }
      }
      sent := None;
    }
  }
}
