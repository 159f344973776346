/** Reconciling the attempted runs of a full collection with its registered packet: loops over maps and
    lists that refuse the collection or build its outcome. */
module E03Full {
  import opened Wrappers
  import opened Reconciliation
  import opened ReconciledOutcome

  datatype Refusal = PacketRefused | AttemptsRefused | PrimaryIncomplete | CollectionRefused(slot: int)

  const VALID_REASONS: set<string> := {
    "verifier-failure", "configuration-mismatch", "gateway-control-mismatch", "infrastructure-failure"
  }

  // ---------------------------------------------------------------- the registered packet

  function ById(runs: seq<Registered>): map<RunId, Registered>
  {
    if runs == [] then map[]
    else ById(runs[..|runs| - 1])[runs[|runs| - 1].runId := runs[|runs| - 1]]
  }

  lemma {:induction false} ByIdLooksUp(runs: seq<Registered>, id: RunId)
    ensures id in ById(runs) <==> exists r <- runs :: r.runId == id
    ensures id in ById(runs) ==> ById(runs)[id] in runs && ById(runs)[id].runId == id
  {
    if runs != [] {
      var n := |runs| - 1;
      ByIdLooksUp(runs[..n], id);
      assert runs == runs[..n] + [runs[n]];
    }
  }

  ghost predicate IdsDistinct(runs: seq<Registered>)
  {
    forall i, j :: 0 <= i < j < |runs| ==> runs[i].runId != runs[j].runId
  }

  lemma {:induction false} ByIdSize(runs: seq<Registered>)
    ensures |ById(runs)| <= |runs|
    ensures |ById(runs)| == |runs| <==> IdsDistinct(runs)
  {
    if runs != [] {
      var n := |runs| - 1;
      var rest := runs[..n];
      ByIdSize(rest);
      ByIdLooksUp(rest, runs[n].runId);
      IdsDistinctNext(runs);
      hide IdsDistinct;
      if runs[n].runId in ById(rest) {
        assert ById(runs).Keys == ById(rest).Keys;
        assert |ById(runs).Keys| == |ById(runs)| && |ById(rest).Keys| == |ById(rest)|;
      }
    }
  }

  lemma IdsDistinctNext(runs: seq<Registered>)
    requires runs != []
    ensures var n := |runs| - 1;
      IdsDistinct(runs) <==> IdsDistinct(runs[..n]) && !exists r <- runs[..n] :: r.runId == runs[n].runId
  {
    var n := |runs| - 1;
    var rest := runs[..n];
    if IdsDistinct(rest) && !exists r <- rest :: r.runId == runs[n].runId {
      forall i, j | 0 <= i < j < |runs| ensures runs[i].runId != runs[j].runId {
        assert rest[i] in rest;
        if j < n { assert rest[j] == runs[j]; }
      }
    }
  }

  /** Six runs, six different conditions, every condition present, one seed. */
  predicate GroupChecks(d: Design, group: seq<Registered>)
  {
    && |group| == |d.conditions| && |set r <- group :: r.condition| == |d.conditions|
    && (forall k <- d.conditions :: exists r <- group :: r.condition == k)
    && |set r <- group :: r.seed| == 1
  }

  ghost predicate ConditionsDistinct(group: seq<Registered>)
  {
    forall i, j :: 0 <= i < j < |group| ==> group[i].condition != group[j].condition
  }

  lemma ConditionsDistinctNext(group: seq<Registered>)
    requires group != []
    ensures var n := |group| - 1;
      ConditionsDistinct(group)
      <==> ConditionsDistinct(group[..n]) && !exists r <- group[..n] :: r.condition == group[n].condition
  {
    var n := |group| - 1;
    var rest := group[..n];
    if ConditionsDistinct(rest) && !exists r <- rest :: r.condition == group[n].condition {
      forall i, j | 0 <= i < j < |group| ensures group[i].condition != group[j].condition {
        assert rest[i] in rest;
        if j < n { assert rest[j] == group[j]; }
      }
    }
  }

  lemma {:induction false} DistinctBySize(group: seq<Registered>)
    ensures |set r <- group :: r.condition| <= |group|
    ensures |set r <- group :: r.condition| == |group| <==> ConditionsDistinct(group)
  {
    if group != [] {
      var n := |group| - 1;
      var rest := group[..n];
      ConditionsDistinctNext(group);
      hide ConditionsDistinct;
      DistinctBySize(rest);
      var a, b := set r <- group :: r.condition, set r <- rest :: r.condition;
      assert group == rest + [group[n]];
      assert a == b + {group[n].condition};
      assert group[n].condition in b <==> exists r <- rest :: r.condition == group[n].condition;
      if group[n].condition in b { assert a == b; }
    }
  }

  lemma OneSeed(group: seq<Registered>)
    ensures |set r <- group :: r.seed| == 1 <==> group != [] && forall r <- group :: r.seed == group[0].seed
  {
    var seeds := set r <- group :: r.seed;
    if group != [] {
      assert group[0] in group && group[0].seed in seeds;
      if |seeds| == 1 {
        forall r <- group ensures r.seed == group[0].seed {
          assert r.seed in seeds;
          SingletonHasOne(seeds, r.seed, group[0].seed);
        }
      }
      if forall r <- group :: r.seed == group[0].seed { assert seeds == {group[0].seed}; }
    } else {
      assert seeds == {};
    }
  }

  lemma SingletonHasOne(s: set<string>, a: string, b: string)
    requires |s| == 1 && a in s && b in s
    ensures a == b
  {
    var rest := s - {a};
    assert |rest| == 0;
    assert b !in rest;
  }

  lemma GroupChecksAreExact(d: Design, group: seq<Registered>)
    ensures GroupChecks(d, group) <==> GroupOk(d, group)
  {
    DistinctBySize(group);
    OneSeed(group);
  }

  ghost predicate RegisteredOk(d: Design, runs: seq<Registered>)
  {
    |runs| == |d.conditions| * Last(d) && PacketOk(d, runs)
  }

  ghost predicate Grouped(bySlot: map<int, seq<Registered>>, runs: seq<Registered>)
  {
    forall slot :: (if slot in bySlot then bySlot[slot] else []) == Group(runs, slot)
  }

  lemma GroupedNext(bySlot: map<int, seq<Registered>>, runs: seq<Registered>, i: nat)
    requires i < |runs| && Grouped(bySlot, runs[..i])
    ensures var s := runs[i].slot;
      Grouped(bySlot[s := (if s in bySlot then bySlot[s] else []) + [runs[i]]], runs[..i + 1])
  {
    assert runs[..i + 1][..i] == runs[..i];
    forall slot ensures Group(runs[..i + 1], slot)
                     == Group(runs[..i], slot) + if slot == runs[i].slot then [runs[i]] else []
    {
      assert runs[..i + 1][i] == runs[i];
    }
  }

  method GroupBySlot(d: Design, registered: seq<Registered>) returns (ok: bool, bySlot: map<int, seq<Registered>>)
    ensures ok <==> forall r <- registered :: SlotUse(d, r)
    ensures ok ==> Grouped(bySlot, registered)
  {
    bySlot := map[];
    var i := 0;
    while i < |registered|
      invariant 0 <= i <= |registered|
      invariant forall k :: 0 <= k < i ==> SlotUse(d, registered[k])
      invariant Grouped(bySlot, registered[..i])
    {
      hide Group, Grouped;
      var run := registered[i];
      if !SlotUse(d, run) { return false, bySlot; }
      GroupedNext(bySlot, registered, i);
      bySlot := bySlot[run.slot := (if run.slot in bySlot then bySlot[run.slot] else []) + [run]];
      i := i + 1;
    }
    assert registered[..i] == registered;
    ok := true;
  }

  ghost predicate GroupsOk(d: Design, runs: seq<Registered>, hi: int)
  {
    && (forall slot | 1 <= slot < hi :: GroupOk(d, Group(runs, slot)))
    && (forall s, t | 1 <= s < t < hi :: SeedOf(Group(runs, s)) != SeedOf(Group(runs, t)))
  }

  ghost predicate SeedsBefore(runs: seq<Registered>, hi: int, seeds: set<string>)
  {
    && (forall s | 1 <= s < hi :: SeedOf(Group(runs, s)) in seeds)
    && (forall x <- seeds :: exists s | 1 <= s < hi :: SeedOf(Group(runs, s)) == x)
  }

  lemma GroupsNext(d: Design, runs: seq<Registered>, slot: int, seeds: set<string>)
    requires 1 <= slot <= Last(d) && GroupsOk(d, runs, slot) && SeedsBefore(runs, slot, seeds)
    ensures GroupOk(d, Group(runs, slot)) && SeedOf(Group(runs, slot)) !in seeds
            <==> GroupsOk(d, runs, slot + 1)
    ensures GroupOk(d, Group(runs, slot)) ==> SeedsBefore(runs, slot + 1, seeds + {SeedOf(Group(runs, slot))})
  {
    hide Group, GroupOk, SeedOf;
  }

  lemma GroupsOkBelow(d: Design, runs: seq<Registered>, lo: int, hi: int)
    requires GroupsOk(d, runs, hi) && lo <= hi
    ensures GroupsOk(d, runs, lo)
  {
    hide Group, GroupOk;
  }

  method CheckGroups(d: Design, registered: seq<Registered>, bySlot: map<int, seq<Registered>>) returns (ok: bool)
    requires Grouped(bySlot, registered)
    ensures ok <==> GroupsOk(d, registered, Last(d) + 1)
  {
    hide Group, GroupOk, GroupChecks, GroupsOk, SeedsBefore;
    var scenarioSeeds: set<string> := {};
    NoGroups(d, registered);
    var slot := 1;
    while slot <= Last(d)
      invariant 1 <= slot <= Last(d) + 1
      invariant GroupsOk(d, registered, slot) && SeedsBefore(registered, slot, scenarioSeeds)
    {
      var group := if slot in bySlot then bySlot[slot] else [];
      assert group == Group(registered, slot);
      GroupChecksAreExact(d, group);
      GroupOkNonempty(d, group);
      GroupsNext(d, registered, slot, scenarioSeeds);
      if !GroupChecks(d, group) || group[0].seed in scenarioSeeds {
        if GroupsOk(d, registered, Last(d) + 1) {
          GroupsOkBelow(d, registered, slot + 1, Last(d) + 1);
          assert false;
        }
        return false;
      }
      scenarioSeeds := scenarioSeeds + {group[0].seed};
      slot := slot + 1;
    }
    ok := true;
  }

  lemma NoGroups(d: Design, runs: seq<Registered>)
    ensures GroupsOk(d, runs, 1) && SeedsBefore(runs, 1, {})
  {
  }

  lemma GroupOkNonempty(d: Design, group: seq<Registered>)
    ensures GroupOk(d, group) ==> group != []
  {
  }

  // ---------------------------------------------------------------- the attempts

  predicate IsStateHash(h: string)
  {
    && |h| == 71 && h[..7] == "sha256:"
    && forall i | 7 <= i < 71 :: '0' <= h[i] <= '9' || 'a' <= h[i] <= 'f'
  }

  /** Bound to its registered run, with original data when valid and a known reason when not. */
  predicate AttemptOk(d: Design, byId: map<RunId, Registered>, a: Attempt)
  {
    && a.runId in byId
    && a.slot == byId[a.runId].slot && a.use == byId[a.runId].use && a.condition == byId[a.runId].condition
    && if a.valid then
         a.invalidReason.None? && a.bundleVerified
         && a.agreements.Some? && 0 <= a.agreements.value <= d.episodes
         && a.hashes.Some? && |a.hashes.value| == d.episodes
         && forall h <- a.hashes.value :: IsStateHash(h)
       else a.invalidReason.Some? && a.invalidReason.value in VALID_REASONS
  }

  predicate AttemptsOk(d: Design, byId: map<RunId, Registered>, attempted: seq<Attempt>)
  {
    && (forall a <- attempted :: AttemptOk(d, byId, a))
    && AttemptsDistinct(attempted)
  }

  predicate AttemptsDistinct(attempted: seq<Attempt>)
  {
    forall i, j :: 0 <= i < j < |attempted| ==> attempted[i].runId != attempted[j].runId
  }

  function Observe(attempted: seq<Attempt>): map<RunId, Attempt>
  {
    if attempted == [] then map[]
    else Observe(attempted[..|attempted| - 1])[attempted[|attempted| - 1].runId := attempted[|attempted| - 1]]
  }

  lemma {:induction false} ObserveLooksUp(attempted: seq<Attempt>, id: RunId)
    ensures id in Observe(attempted) <==> exists a <- attempted :: a.runId == id
    ensures id in Observe(attempted) ==> Observe(attempted)[id] in attempted && Observe(attempted)[id].runId == id
  {
    if attempted != [] {
      var n := |attempted| - 1;
      ObserveLooksUp(attempted[..n], id);
      assert attempted == attempted[..n] + [attempted[n]];
    }
  }

  lemma AttemptsDistinctNext(rest: seq<Attempt>, a: Attempt)
    ensures AttemptsDistinct(rest + [a]) <==> AttemptsDistinct(rest) && !exists b <- rest :: b.runId == a.runId
  {
    var next := rest + [a];
    if AttemptsDistinct(next) {
      forall i, j | 0 <= i < j < |rest| ensures rest[i].runId != rest[j].runId {
        assert next[i] == rest[i] && next[j] == rest[j];
      }
      forall b <- rest ensures b.runId != a.runId {
        var i :| 0 <= i < |rest| && rest[i] == b;
        assert next[i] == b && next[|rest|] == a;
      }
    }
    if AttemptsDistinct(rest) && !exists b <- rest :: b.runId == a.runId {
      forall i, j | 0 <= i < j < |next| ensures next[i].runId != next[j].runId {
        assert next[i] == rest[i] && rest[i] in rest;
        if j < |rest| { assert next[j] == rest[j]; }
      }
    }
  }

  lemma AttemptsOkSplits(d: Design, byId: map<RunId, Registered>, rest: seq<Attempt>, a: Attempt)
    ensures AttemptsOk(d, byId, rest + [a])
            <==> AttemptsOk(d, byId, rest) && AttemptOk(d, byId, a) && !exists b <- rest :: b.runId == a.runId
  {
    hide AttemptOk, AttemptsDistinct;
    AttemptsDistinctNext(rest, a);
    assert forall b :: b in rest + [a] <==> b in rest || b == a;
  }

  lemma ObserveNext(rest: seq<Attempt>, a: Attempt)
    ensures Observe(rest + [a]) == Observe(rest)[a.runId := a]
  {
    assert (rest + [a])[..|rest|] == rest;
  }

  lemma AttemptsOkNext(d: Design, byId: map<RunId, Registered>, attempted: seq<Attempt>, i: nat)
    requires i < |attempted| && AttemptsOk(d, byId, attempted[..i])
    ensures AttemptsOk(d, byId, attempted[..i + 1])
            <==> AttemptOk(d, byId, attempted[i]) && attempted[i].runId !in Observe(attempted[..i])
    ensures Observe(attempted[..i + 1]) == Observe(attempted[..i])[attempted[i].runId := attempted[i]]
  {
    hide AttemptOk, AttemptsOk, Observe;
    var rest, a := attempted[..i], attempted[i];
    assert attempted[..i + 1] == rest + [a];
    ObserveLooksUp(rest, a.runId);
    AttemptsOkSplits(d, byId, rest, a);
    ObserveNext(rest, a);
  }

  lemma AttemptsOkBelow(d: Design, byId: map<RunId, Registered>, attempted: seq<Attempt>, i: nat)
    requires i <= |attempted| && AttemptsOk(d, byId, attempted)
    ensures AttemptsOk(d, byId, attempted[..i])
  {
    hide AttemptOk;
  }

  method CheckAttempts(d: Design, byId: map<RunId, Registered>, attempted: seq<Attempt>)
    returns (ok: bool, observed: map<RunId, Attempt>)
    ensures ok <==> AttemptsOk(d, byId, attempted)
    ensures ok ==> observed == Observe(attempted)
  {
    hide AttemptOk, AttemptsOk;
    observed := map[];
    var i := 0;
    NoAttempts(d, byId);
    assert attempted[..0] == [];
    while i < |attempted|
      invariant 0 <= i <= |attempted|
      invariant AttemptsOk(d, byId, attempted[..i]) && observed == Observe(attempted[..i])
    {
      hide Observe;
      var run := attempted[i];
      AttemptsOkNext(d, byId, attempted, i);
      if !AttemptOk(d, byId, run) || run.runId in observed {
        if AttemptsOk(d, byId, attempted) {
          AttemptsOkBelow(d, byId, attempted, i + 1);
          assert false;
        }
        return false, observed;
      }
      observed := observed[run.runId := run];
      i := i + 1;
    }
    assert attempted[..i] == attempted;
    ok := true;
  }

  lemma NoAttempts(d: Design, byId: map<RunId, Registered>)
    ensures AttemptsOk(d, byId, [])
  {
  }

  method CountPrimaries(c: Collection) returns (count: nat)
    ensures count == CountPrimary(c, c.runs)
  {
    count := 0;
    var i := 0;
    while i < |c.runs|
      invariant 0 <= i <= |c.runs|
      invariant count == CountPrimary(c, c.runs[..i])
    {
      assert c.runs[..i + 1][..i] == c.runs[..i];
      if c.runs[i].use == Primary && c.runs[i].runId in c.observed { count := count + 1; }
      i := i + 1;
    }
    assert c.runs[..i] == c.runs;
  }

  lemma PrimariesCounted(c: Collection)
    requires PacketOk(c.d, c.runs)
    ensures CountPrimary(c, c.runs) == |c.d.conditions| * c.d.primaries <==> AllAttempted(c, c.d.primaries + 1)
  {
    assert forall r <- c.runs :: SlotUse(c.d, r);
    hide PacketOk, CountPrimary, SumObserved, AllAttempted, SlotUse;
    CountBySlot(c, c.runs, c.d.primaries + 1);
    FullSum(c, c.d.primaries + 1);
    TimesIs(|c.d.conditions|, c.d.primaries);
  }

  /** With the packet and the attempts checked, a full primary count is all that pairing needs. */
  lemma CheckedIsSound(d: Design, runs: seq<Registered>, attempted: seq<Attempt>)
    requires PacketOk(d, runs) && AttemptsOk(d, ById(runs), attempted) && d.episodes > 0
    ensures var c := Collection(d, runs, Observe(attempted));
      CountPrimary(c, runs) == |d.conditions| * d.primaries <==> Sound(c)
  {
    hide PacketOk, AttemptsOk, ById, Observe, CountPrimary, AttemptedSlot;
    var c := Collection(d, runs, Observe(attempted));
    ObservedIsChecked(c, attempted);
    PrimariesCounted(c);
  }

  lemma ObservedIsChecked(c: Collection, attempted: seq<Attempt>)
    requires AttemptsOk(c.d, ById(c.runs), attempted) && c.observed == Observe(attempted)
    ensures forall id <- c.observed :: c.observed[id].valid ==>
              c.observed[id].agreements.Some? && c.observed[id].hashes.Some?
    ensures forall id <- c.observed :: exists r <- c.runs :: r.runId == id
  {
    forall id <- c.observed
      ensures c.observed[id].valid ==> c.observed[id].agreements.Some? && c.observed[id].hashes.Some?
      ensures exists r <- c.runs :: r.runId == id
    {
      ObserveLooksUp(attempted, id);
      assert AttemptOk(c.d, ById(c.runs), c.observed[id]);
      ByIdLooksUp(c.runs, id);
    }
  }

  // ---------------------------------------------------------------- pairing one slot

  datatype Pairing = Diverges | Incomplete | Paired(pair: Pair)

  method PairSlot(c: Collection, group: seq<Registered>, slot: int) returns (r: Pairing)
    requires Sound(c) && 1 <= slot <= Last(c.d) && AttemptedSlot(c, slot) && group == Group(c.runs, slot)
    ensures r.Incomplete? <==> !ValidSlot(c, slot)
    ensures r.Paired? <==> ValidSlot(c, slot) && Agrees(c, slot)
    ensures r.Paired? ==> r.pair == PairOf(c, slot)
  {
    hide Sound, PacketOk, Group;
    var i := 0;
    while i < |group|
      invariant 0 <= i <= |group|
      invariant forall k :: 0 <= k < i ==> c.observed[group[k].runId].valid
    {
      if !c.observed[group[i].runId].valid { return Incomplete; }
      i := i + 1;
    }
    SlotHasRows(c, slot);
    var reference := c.observed[group[0].runId].hashes;
    i := 1;
    while i < |group|
      invariant 1 <= i <= |group|
      invariant forall k :: 0 <= k < i ==> c.observed[group[k].runId].hashes == reference
    {
      if c.observed[group[i].runId].hashes != reference { return Diverges; }
      i := i + 1;
    }
    var runIds, rates := PairMaps(c, group);
    r := Paired(Pair(slot, slot, if slot <= c.d.primaries then Primary else Reserve, reference.value, runIds, rates));
  }

  lemma SlotHasRows(c: Collection, slot: int)
    requires Sound(c) && 1 <= slot <= Last(c.d)
    ensures Group(c.runs, slot) != [] && c.d.episodes > 0
    ensures forall id <- c.observed :: c.observed[id].valid ==>
              c.observed[id].agreements.Some? && c.observed[id].hashes.Some?
  {
    assert GroupOk(c.d, Group(c.runs, slot));
  }

  method PairMaps(c: Collection, group: seq<Registered>) returns (runIds: map<string, RunId>, rates: map<string, real>)
    requires forall r <- group :: r.runId in c.observed && c.observed[r.runId].agreements.Some?
    requires c.d.episodes > 0
    ensures runIds == RunIdsOf(group) && rates == RatesOf(c, group)
  {
    runIds, rates := map[], map[];
    var i := 0;
    while i < |group|
      invariant 0 <= i <= |group|
      invariant runIds == RunIdsOf(group[..i]) && rates == RatesOf(c, group[..i])
    {
      assert group[..i + 1][..i] == group[..i];
      runIds := runIds[group[i].condition := group[i].runId];
      rates := rates[group[i].condition :=
        c.observed[group[i].runId].agreements.value as real / c.d.episodes as real];
      i := i + 1;
    }
    assert group[..i] == group;
  }

  // ---------------------------------------------------------------- primaries

  method ValidRunIds(c: Collection, group: seq<Registered>) returns (ids: seq<RunId>)
    requires Observed(c, group)
    ensures ids == ValidIds(c, group)
  {
    ids := [];
    var i := 0;
    while i < |group|
      invariant 0 <= i <= |group|
      invariant ids == ValidIds(c, group[..i])
    {
      assert group[..i + 1][..i] == group[..i];
      if c.observed[group[i].runId].valid { ids := ids + [group[i].runId]; }
      i := i + 1;
    }
    assert group[..i] == group;
  }

  ghost predicate PairsByPrimary(c: Collection, hi: int, valid: map<int, Pair>)
    requires Sound(c) && hi <= c.d.primaries + 1
  {
    && (forall s :: s in valid <==> 1 <= s < hi && ValidSlot(c, s))
    && (forall s <- valid :: valid[s] == PairOf(c, s))
  }

  ghost predicate PrimariesAgree(c: Collection, hi: int)
  {
    forall s | 1 <= s < hi && ValidSlot(c, s) :: Agrees(c, s)
  }

  lemma PrimaryStep(c: Collection, slot: int, valid: map<int, Pair>)
    requires Sound(c) && 1 <= slot <= c.d.primaries && PairsByPrimary(c, slot, valid) && PrimariesAgree(c, slot)
    ensures ValidSlot(c, slot) ==> PairsByPrimary(c, slot + 1, valid[slot := PairOf(c, slot)])
    ensures !ValidSlot(c, slot) ==> PairsByPrimary(c, slot + 1, valid)
    ensures PrimariesAgree(c, slot + 1) <==> !ValidSlot(c, slot) || Agrees(c, slot)
  {
    hide ValidSlot, Agrees, Sound, PairOf;
  }

  lemma PrimariesAgreeBelow(c: Collection, lo: int, hi: int)
    requires PrimariesAgree(c, hi) && lo <= hi
    ensures PrimariesAgree(c, lo)
  {
    hide ValidSlot, Agrees;
  }

  method PairPrimaries(c: Collection, bySlot: map<int, seq<Registered>>)
    returns (failed: Option<int>, valid: map<int, Pair>, invalid: seq<int>, excluded: seq<RunId>)
    requires Sound(c) && Grouped(bySlot, c.runs)
    ensures failed.None? <==> PrimariesAgree(c, c.d.primaries + 1)
    ensures failed.Some? ==> 1 <= failed.value <= c.d.primaries && PrimariesAgree(c, failed.value)
                             && !PrimariesAgree(c, failed.value + 1)
    ensures failed.None? ==> PairsByPrimary(c, c.d.primaries + 1, valid)
    ensures failed.None? ==> invalid == InvalidPrimary(c) && excluded == ExcludedIds(c, 1, c.d.primaries + 1)
  {
    hide ValidSlot, Agrees, Group, GroupOk, PairOf, PacketOk, AttemptedSlot, PairsByPrimary, PrimariesAgree;
    valid, invalid, excluded := map[], [], [];
    NoPrimaries(c);
    var slot := 1;
    while slot <= c.d.primaries
      invariant 1 <= slot <= c.d.primaries + 1
      invariant PairsByPrimary(c, slot, valid) && PrimariesAgree(c, slot)
      invariant invalid == InvalidSlots(c, 1, slot) && excluded == ExcludedIds(c, 1, slot)
    {
      assert AttemptedSlot(c, slot);
      hide Sound, Grouped;
      var group := GroupAt(bySlot, c.runs, slot);
      PrimaryStep(c, slot, valid);
      var pair := PairSlot(c, group, slot);
      match pair {
        case Diverges =>
          if PrimariesAgree(c, c.d.primaries + 1) {
            PrimariesAgreeBelow(c, slot + 1, c.d.primaries + 1);
            assert false;
          }
          return Some(slot), valid, invalid, excluded;
        case Paired(p) => valid := valid[slot := p];
        case Incomplete =>
          ObservedGroup(c, slot);
          var ids := ValidRunIds(c, group);
          invalid := invalid + [slot];
          excluded := excluded + ids;
      }
      slot := slot + 1;
    }
    failed := None;
  }

  lemma NoPrimaries(c: Collection)
    requires Sound(c)
    ensures PairsByPrimary(c, 1, map[]) && PrimariesAgree(c, 1)
  {
    hide Sound;
  }

  lemma ObservedGroup(c: Collection, slot: int)
    requires AttemptedSlot(c, slot)
    ensures Observed(c, Group(c.runs, slot))
  {
  }

  method GroupAt(bySlot: map<int, seq<Registered>>, ghost runs: seq<Registered>, slot: int)
    returns (group: seq<Registered>)
    requires Grouped(bySlot, runs)
    ensures group == Group(runs, slot)
  {
    hide Group;
    group := if slot in bySlot then bySlot[slot] else [];
  }

  // ---------------------------------------------------------------- reserves

  method CountGroup(c: Collection, group: seq<Registered>) returns (count: nat)
    ensures count == CountObserved(c, group)
  {
    count := 0;
    var i := 0;
    while i < |group|
      invariant 0 <= i <= |group|
      invariant count == CountObserved(c, group[..i])
    {
      assert group[..i + 1][..i] == group[..i];
      if group[i].runId in c.observed { count := count + 1; }
      i := i + 1;
    }
    assert group[..i] == group;
  }

  predicate AllValid(c: Collection, slots: seq<int>)
  {
    forall i | 0 <= i < |slots| :: 1 <= slots[i] <= Last(c.d) && ValidSlot(c, slots[i])
  }

  function PairsAt(c: Collection, slots: seq<int>): seq<Pair>
    requires Sound(c) && AllValid(c, slots)
  {
    seq(|slots|, i requires 0 <= i < |slots| => PairOf(c, slots[i]))
  }

  predicate Gap(c: Collection, hi: int)
  {
    exists s | c.d.primaries < s < hi :: CountObserved(c, Group(c.runs, s)) == 0
  }

  ghost predicate ReservesFine(c: Collection, hi: int)
  {
    forall s | c.d.primaries < s < hi :: ReserveOk(c, s) && (ValidSlot(c, s) ==> Agrees(c, s))
  }

  lemma GapNext(c: Collection, slot: int)
    requires c.d.primaries < slot
    ensures Gap(c, slot + 1) <==> Gap(c, slot) || CountObserved(c, Group(c.runs, slot)) == 0
  {
    hide CountObserved, Group;
  }

  lemma ReservesFineNext(c: Collection, slot: int)
    requires c.d.primaries < slot
    ensures ReservesFine(c, slot + 1)
            <==> ReservesFine(c, slot) && ReserveOk(c, slot) && (ValidSlot(c, slot) ==> Agrees(c, slot))
  {
    hide ReserveOk, ValidSlot, Agrees;
  }

  lemma ReserveOkMeans(c: Collection, slot: int)
    ensures ReserveOk(c, slot) <==>
      || CountObserved(c, Group(c.runs, slot)) == 0
      || (&& CountObserved(c, Group(c.runs, slot)) == |c.d.conditions| && !Gap(c, slot)
          && |ValidSlots(c, c.d.primaries + 1, slot)| < |InvalidPrimary(c)|)
  {
    hide CountObserved, Group, ValidSlots, InvalidPrimary;
  }

  /** A slot with no attempt is neither valid nor attempted; one with all is attempted. */
  lemma SlotCounts(c: Collection, slot: int)
    requires Sound(c) && 1 <= slot <= Last(c.d)
    ensures CountObserved(c, Group(c.runs, slot)) == 0 ==> !ValidSlot(c, slot) && !AttemptedSlot(c, slot)
    ensures CountObserved(c, Group(c.runs, slot)) == |c.d.conditions| <==> AttemptedSlot(c, slot)
    ensures CountObserved(c, Group(c.runs, slot)) == |c.d.conditions| ==> CountObserved(c, Group(c.runs, slot)) != 0
  {
    SlotHasRows(c, slot);
    SlotCount(c, slot);
    hide Sound, PacketOk, Group, CountObserved, Observed;
    CountIsFull(c, Group(c.runs, slot));
    assert ValidSlot(c, slot) ==> AttemptedSlot(c, slot) by { ValidIsAttempted(c, slot); }
  }

  lemma ValidIsAttempted(c: Collection, slot: int)
    ensures ValidSlot(c, slot) ==> AttemptedSlot(c, slot)
  {
  }

  lemma ReserveSlotsValid(c: Collection, hi: int)
    requires hi <= Last(c.d) + 1
    ensures AllValid(c, ValidSlots(c, c.d.primaries + 1, hi))
  {
    hide ValidSlot, ValidSlots;
    SlotsInRange(c, c.d.primaries + 1, hi);
    var slots := ValidSlots(c, c.d.primaries + 1, hi);
    assert forall i | 0 <= i < |slots| :: slots[i] in slots;
  }

  /** The lists the reserve loop has built before slot `hi`. */
  ghost predicate ReservesDone(c: Collection, hi: int, valid: seq<Pair>, invalid: seq<int>, excluded: seq<RunId>,
                               unattempted: seq<RunId>)
    requires Sound(c) && hi <= Last(c.d) + 1
  {
    ReserveSlotsValid(c, hi);
    && valid == PairsAt(c, ValidSlots(c, c.d.primaries + 1, hi))
    && invalid == InvalidSlots(c, c.d.primaries + 1, hi)
    && excluded == ExcludedIds(c, 1, c.d.primaries + 1) + ExcludedIds(c, c.d.primaries + 1, hi)
    && unattempted == UnattemptedIds(c, c.d.primaries + 1, hi)
  }

  lemma NoReserves(c: Collection)
    requires Sound(c)
    ensures ReservesDone(c, c.d.primaries + 1, [], [], ExcludedIds(c, 1, c.d.primaries + 1), [])
    ensures ReservesFine(c, c.d.primaries + 1) && !Gap(c, c.d.primaries + 1)
  {
    hide Sound, ExcludedIds, Group;
    assert ExcludedIds(c, c.d.primaries + 1, c.d.primaries + 1) == [] by { NoExcluded(c, c.d.primaries + 1); }
  }

  lemma NoExcluded(c: Collection, lo: int)
    ensures ExcludedIds(c, lo, lo) == []
  {
  }

  lemma ValidNext(c: Collection, slot: int)
    requires c.d.primaries < slot
    ensures var now := ValidSlots(c, c.d.primaries + 1, slot);
      ValidSlots(c, c.d.primaries + 1, slot + 1) == if ValidSlot(c, slot) then now + [slot] else now
  {
    hide ValidSlot;
  }

  lemma InvalidNext(c: Collection, slot: int)
    requires c.d.primaries < slot
    ensures var now := InvalidSlots(c, c.d.primaries + 1, slot);
      InvalidSlots(c, c.d.primaries + 1, slot + 1)
      == if AttemptedSlot(c, slot) && !ValidSlot(c, slot) then now + [slot] else now
  {
    hide ValidSlot, AttemptedSlot;
  }

  lemma ExcludedNext(c: Collection, slot: int)
    requires c.d.primaries < slot
    ensures var before := ExcludedIds(c, 1, c.d.primaries + 1);
      before + ExcludedIds(c, c.d.primaries + 1, slot + 1)
      == if AttemptedSlot(c, slot) && !ValidSlot(c, slot)
         then before + ExcludedIds(c, c.d.primaries + 1, slot) + ValidIds(c, Group(c.runs, slot))
         else before + ExcludedIds(c, c.d.primaries + 1, slot)
  {
    hide ValidSlot, AttemptedSlot, ValidIds, Group;
    var now := ExcludedIds(c, c.d.primaries + 1, slot);
    assert now + [] == now;
  }

  lemma UnattemptedNext(c: Collection, slot: int)
    requires c.d.primaries < slot
    ensures var now := UnattemptedIds(c, c.d.primaries + 1, slot);
      UnattemptedIds(c, c.d.primaries + 1, slot + 1)
      == if CountObserved(c, Group(c.runs, slot)) == 0 then now + Ids(Group(c.runs, slot)) else now
  {
    hide Ids, Group, CountObserved;
  }

  lemma UntouchedStep(c: Collection, slot: int, valid: seq<Pair>, invalid: seq<int>, excluded: seq<RunId>,
                      unattempted: seq<RunId>)
    requires Sound(c) && c.d.primaries < slot <= Last(c.d)
    requires ReservesDone(c, slot, valid, invalid, excluded, unattempted)
    requires CountObserved(c, Group(c.runs, slot)) == 0
    ensures ReservesDone(c, slot + 1, valid, invalid, excluded, unattempted + Ids(Group(c.runs, slot)))
  {
    hide Sound, Group, CountObserved, ValidSlot, AttemptedSlot, ValidIds, Ids, PairOf, PairsAt, AllValid,
         ValidSlots, InvalidSlots, ExcludedIds, UnattemptedIds;
    SlotCounts(c, slot);
    ValidNext(c, slot);
    InvalidNext(c, slot);
    ExcludedNext(c, slot);
    UnattemptedNext(c, slot);
  }

  lemma PairsAtAppend(c: Collection, slots: seq<int>, slot: int)
    requires Sound(c) && AllValid(c, slots) && 1 <= slot <= Last(c.d) && ValidSlot(c, slot)
    ensures AllValid(c, slots + [slot]) && PairsAt(c, slots + [slot]) == PairsAt(c, slots) + [PairOf(c, slot)]
  {
    hide Sound, ValidSlot, PairOf;
  }

  lemma ValidStep(c: Collection, slot: int, valid: seq<Pair>, invalid: seq<int>, excluded: seq<RunId>,
                  unattempted: seq<RunId>)
    requires Sound(c) && c.d.primaries < slot <= Last(c.d)
    requires ReservesDone(c, slot, valid, invalid, excluded, unattempted)
    requires ValidSlot(c, slot)
    ensures ReservesDone(c, slot + 1, valid + [PairOf(c, slot)], invalid, excluded, unattempted)
  {
    hide Sound, Group, CountObserved, ValidSlot, AttemptedSlot, ValidIds, Ids, PairOf, PairsAt, AllValid,
         ValidSlots, InvalidSlots, ExcludedIds, UnattemptedIds;
    SlotCounts(c, slot);
    ValidNext(c, slot);
    InvalidNext(c, slot);
    ExcludedNext(c, slot);
    UnattemptedNext(c, slot);
    ReserveSlotsValid(c, slot);
    PairsAtAppend(c, ValidSlots(c, c.d.primaries + 1, slot), slot);
  }

  lemma InvalidStep(c: Collection, slot: int, valid: seq<Pair>, invalid: seq<int>, excluded: seq<RunId>,
                    unattempted: seq<RunId>)
    requires Sound(c) && c.d.primaries < slot <= Last(c.d)
    requires ReservesDone(c, slot, valid, invalid, excluded, unattempted)
    requires AttemptedSlot(c, slot) && !ValidSlot(c, slot)
    ensures ReservesDone(c, slot + 1, valid, invalid + [slot], excluded + ValidIds(c, Group(c.runs, slot)),
                         unattempted)
  {
    hide Sound, Group, CountObserved, ValidSlot, AttemptedSlot, ValidIds, Ids, PairOf, PairsAt, AllValid,
         ValidSlots, InvalidSlots, ExcludedIds, UnattemptedIds;
    SlotCounts(c, slot);
    ValidNext(c, slot);
    InvalidNext(c, slot);
    ExcludedNext(c, slot);
    UnattemptedNext(c, slot);
  }

  method PairReserves(c: Collection, bySlot: map<int, seq<Registered>>, invalidPrimary: seq<int>,
                      excludedPrimary: seq<RunId>)
    returns (failed: Option<int>, valid: seq<Pair>, invalid: seq<int>, excluded: seq<RunId>, unattempted: seq<RunId>)
    requires Sound(c) && Grouped(bySlot, c.runs)
    requires invalidPrimary == InvalidPrimary(c) && excludedPrimary == ExcludedIds(c, 1, c.d.primaries + 1)
    ensures failed.None? <==> ReservesFine(c, Last(c.d) + 1)
    ensures failed.Some? ==> c.d.primaries < failed.value <= Last(c.d) && ReservesFine(c, failed.value)
                             && !ReservesFine(c, failed.value + 1)
    ensures failed.None? ==> ReservesDone(c, Last(c.d) + 1, valid, invalid, excluded, unattempted)
  {
    hide Sound, Group, Grouped, CountObserved, ValidSlot, AttemptedSlot, ValidIds, Ids, PairOf, InvalidPrimary,
         ReservesFine, ReserveOk, Gap, ReservesDone, ValidSlots, ExcludedIds, Agrees;
    NoReserves(c);
    valid, invalid, excluded, unattempted := [], [], excludedPrimary, [];
    var gap := false;
    var slot := c.d.primaries + 1;
    while slot <= Last(c.d)
      invariant c.d.primaries < slot <= Last(c.d) + 1
      invariant ReservesDone(c, slot, valid, invalid, excluded, unattempted) && ReservesFine(c, slot)
      invariant gap == Gap(c, slot)
    {
      var group := GroupAt(bySlot, c.runs, slot);
      var count := CountGroup(c, group);
      GapNext(c, slot);
      ReserveOkMeans(c, slot);
      ReservesFineNext(c, slot);
      SlotCounts(c, slot);
      ValidCount(c, slot, valid, invalid, excluded, unattempted);
      if count == 0 {
        gap := true;
        UntouchedStep(c, slot, valid, invalid, excluded, unattempted);
        unattempted := unattempted + Ids(group);
      } else {
        if count != |c.d.conditions| || gap || |valid| >= |invalidPrimary| {
          StillWrong(c, slot);
          return Some(slot), valid, invalid, excluded, unattempted;
        }
        var pair := PairSlot(c, group, slot);
        match pair {
          case Diverges =>
            StillWrong(c, slot);
            return Some(slot), valid, invalid, excluded, unattempted;
          case Paired(p) =>
            ValidStep(c, slot, valid, invalid, excluded, unattempted);
            valid := valid + [p];
          case Incomplete =>
            InvalidStep(c, slot, valid, invalid, excluded, unattempted);
            ObservedGroup(c, slot);
            var ids := ValidRunIds(c, group);
            invalid := invalid + [slot];
            excluded := excluded + ids;
        }
      }
      slot := slot + 1;
    }
    failed := None;
  }

  lemma StillWrong(c: Collection, slot: int)
    requires c.d.primaries < slot <= Last(c.d) && !ReservesFine(c, slot + 1)
    ensures !ReservesFine(c, Last(c.d) + 1)
  {
    hide ReserveOk, ValidSlot, Agrees;
  }

  lemma ValidCount(c: Collection, slot: int, valid: seq<Pair>, invalid: seq<int>, excluded: seq<RunId>,
                   unattempted: seq<RunId>)
    requires Sound(c) && c.d.primaries < slot <= Last(c.d)
    requires ReservesDone(c, slot, valid, invalid, excluded, unattempted)
    ensures |valid| == |ValidSlots(c, c.d.primaries + 1, slot)|
  {
    hide Sound, Group, ExcludedIds, PairOf, ValidSlot;
  }

  // ---------------------------------------------------------------- assembling the outcome

  lemma AcceptableParts(c: Collection)
    ensures Acceptable(c)
            <==> Sound(c) && PrimariesAgree(c, c.d.primaries + 1) && ReservesFine(c, Last(c.d) + 1)
  {
    hide Sound, ReserveOk, ValidSlot, Agrees;
  }

  function Rank(c: Collection, slot: int): nat
  {
    |InvalidSlots(c, 1, slot)|
  }

  lemma {:induction false} InvalidAtRank(c: Collection, hi: int, slot: int)
    requires 1 <= slot < hi && AttemptedSlot(c, slot) && !ValidSlot(c, slot)
    ensures Rank(c, slot) < |InvalidSlots(c, 1, hi)| && InvalidSlots(c, 1, hi)[Rank(c, slot)] == slot
    decreases hi
  {
    hide AttemptedSlot, ValidSlot;
    if slot < hi - 1 { InvalidAtRank(c, hi - 1, slot); }
  }

  /** The first `k` reserves, keyed by the primary each replaces. */
  ghost predicate Keyed(c: Collection, reserves: seq<Pair>, k: nat, byPrimary: map<int, Pair>)
    requires k <= |reserves|
  {
    && (forall s | 1 <= s <= c.d.primaries && !ValidSlot(c, s) :: s in byPrimary <==> Rank(c, s) < k)
    && (forall s | 1 <= s <= c.d.primaries && !ValidSlot(c, s) && Rank(c, s) < k ::
          s in byPrimary && byPrimary[s] == reserves[Rank(c, s)])
  }

  lemma KeyedNext(c: Collection, reserves: seq<Pair>, k: nat, byPrimary: map<int, Pair>)
    requires Sound(c) && k < |reserves| <= |InvalidPrimary(c)| && Keyed(c, reserves, k, byPrimary)
    ensures Keyed(c, reserves, k + 1, byPrimary[InvalidPrimary(c)[k] := reserves[k]])
  {
    hide Sound, ValidSlot, Rank, InvalidPrimary;
    forall s | 1 <= s <= c.d.primaries && !ValidSlot(c, s)
      ensures Rank(c, s) == k <==> s == InvalidPrimary(c)[k]
    {
      RankIs(c, k, s);
    }
  }

  lemma RankIs(c: Collection, k: nat, slot: int)
    requires Sound(c) && k < |InvalidPrimary(c)| && 1 <= slot <= c.d.primaries && !ValidSlot(c, slot)
    ensures Rank(c, slot) == k <==> slot == InvalidPrimary(c)[k]
  {
    hide Sound, ValidSlot, AttemptedSlot, InvalidSlots;
    PrimaryAttempted(c, slot);
    InvalidAtRank(c, c.d.primaries + 1, slot);
    RankOfInvalid(c, c.d.primaries + 1, k);
  }

  lemma PrimaryAttempted(c: Collection, slot: int)
    requires Sound(c) && 1 <= slot <= c.d.primaries
    ensures AttemptedSlot(c, slot)
  {
    hide AttemptedSlot, PacketOk;
  }

  method KeyReplacements(c: Collection, invalid: seq<int>, reserves: seq<Pair>)
    returns (replacements: seq<Replacement>, byPrimary: map<int, Pair>)
    requires Sound(c) && invalid == InvalidPrimary(c) && |reserves| <= |invalid|
    requires AllValid(c, ValidReserves(c)) && reserves == PairsAt(c, ValidReserves(c))
    ensures replacements == Replacements(invalid, ValidReserves(c))
    ensures Keyed(c, reserves, |reserves|, byPrimary)
  {
    hide Sound, ValidSlot, Rank, InvalidPrimary, Keyed, AllValid, ValidReserves;
    replacements, byPrimary := [], map[];
    NothingKeyed(c, reserves);
    var k := 0;
    while k < |reserves|
      invariant 0 <= k <= |reserves|
      invariant replacements == Replacements(invalid, ValidReserves(c))[..k]
      invariant Keyed(c, reserves, k, byPrimary)
    {
      KeyedNext(c, reserves, k, byPrimary);
      replacements := replacements + [Replacement(invalid[k], reserves[k].sourceSlot)];
      byPrimary := byPrimary[invalid[k] := reserves[k]];
      k := k + 1;
    }
  }

  lemma NothingKeyed(c: Collection, reserves: seq<Pair>)
    ensures Keyed(c, reserves, 0, map[])
  {
    hide ValidSlot;
  }

  lemma IncludedStep(c: Collection, slot: int, valid: map<int, Pair>, reserves: seq<Pair>, byPrimary: map<int, Pair>)
    requires Acceptable(c) && Sound(c) && 1 <= slot <= c.d.primaries
    requires PairsByPrimary(c, c.d.primaries + 1, valid)
    requires AllValid(c, ValidReserves(c)) && reserves == PairsAt(c, ValidReserves(c))
    requires Keyed(c, reserves, |reserves|, byPrimary)
    requires forall s <- ValidReserves(c) :: 1 <= s <= Last(c.d) && ValidSlot(c, s)
    ensures Included(c, ValidReserves(c), slot + 1) == Included(c, ValidReserves(c), slot)
            + if slot in valid then [valid[slot]]
              else if slot in byPrimary then [byPrimary[slot].(primarySlot := slot)] else []
  {
    hide Acceptable, Sound, ValidReserves, AllValid, PairOf, InvalidSlots;
    if ValidSlot(c, slot) {
      hide ValidSlot, Keyed;
      OwnPair(c, slot);
    } else {
      hide ValidSlot;
      assert slot !in valid;
      if Rank(c, slot) < |reserves| {
        assert ValidReserves(c)[Rank(c, slot)] in ValidReserves(c);
        assert byPrimary[slot] == PairOf(c, ValidReserves(c)[Rank(c, slot)]);
      }
    }
  }

  lemma OwnPair(c: Collection, slot: int)
    requires Sound(c) && 1 <= slot <= Last(c.d) && ValidSlot(c, slot)
    ensures PairOf(c, slot).(primarySlot := slot) == PairOf(c, slot)
  {
    hide Sound, ValidSlot;
  }

  method FillPrimaries(c: Collection, valid: map<int, Pair>, reserves: seq<Pair>, byPrimary: map<int, Pair>)
    returns (included: seq<Pair>)
    requires Acceptable(c) && Sound(c) && PairsByPrimary(c, c.d.primaries + 1, valid)
    requires AllValid(c, ValidReserves(c)) && reserves == PairsAt(c, ValidReserves(c))
    requires Keyed(c, reserves, |reserves|, byPrimary)
    ensures included == IncludedPairs(c)
  {
    hide Acceptable, Sound, ValidReserves, AllValid, Keyed, PairsByPrimary, ValidSlot, PairsAt;
    ReservesUsable(c);
    NothingIncluded(c);
    included := [];
    var slot := 1;
    while slot <= c.d.primaries
      invariant 1 <= slot <= c.d.primaries + 1
      invariant included == Included(c, ValidReserves(c), slot)
    {
      hide Included;
      IncludedStep(c, slot, valid, reserves, byPrimary);
      if slot in valid {
        included := included + [valid[slot]];
      } else if slot in byPrimary {
        included := included + [byPrimary[slot].(primarySlot := slot)];
      }
      slot := slot + 1;
    }
  }

  lemma NothingIncluded(c: Collection)
    requires Sound(c) && forall s <- ValidReserves(c) :: 1 <= s <= Last(c.d) && ValidSlot(c, s)
    ensures Included(c, ValidReserves(c), 1) == []
  {
    hide Sound, ValidSlot, ValidReserves;
  }

  lemma PacketParts(d: Design, runs: seq<Registered>)
    ensures PacketOk(d, runs)
            <==> IdsDistinct(runs) && (forall r <- runs :: SlotUse(d, r)) && GroupsOk(d, runs, Last(d) + 1)
  {
    hide GroupOk, SlotUse, Group, SeedOf;
  }

  method IndexById(registered: seq<Registered>) returns (byId: map<RunId, Registered>)
    ensures byId == ById(registered)
  {
    byId := map[];
    var i := 0;
    while i < |registered|
      invariant 0 <= i <= |registered|
      invariant byId == ById(registered[..i])
    {
      assert registered[..i + 1][..i] == registered[..i];
      byId := byId[registered[i].runId := registered[i]];
      i := i + 1;
    }
    assert registered[..i] == registered;
  }

  method CheckRegistered(d: Design, registered: seq<Registered>)
    returns (ok: bool, byId: map<RunId, Registered>, bySlot: map<int, seq<Registered>>)
    ensures ok <==> RegisteredOk(d, registered)
    ensures ok ==> byId == ById(registered) && Grouped(bySlot, registered)
  {
    hide ById, IdsDistinct, PacketOk, Group, Grouped, GroupsOk, SlotUse;
    byId, bySlot := map[], map[];
    PacketParts(d, registered);
    if |registered| != |d.conditions| * Last(d) { return false, byId, bySlot; }
    byId := IndexById(registered);
    ByIdSize(registered);
    if |byId| != |registered| { return false, byId, bySlot; }
    ok, bySlot := GroupBySlot(d, registered);
    if ok { ok := CheckGroups(d, registered, bySlot); }
  }

  /** The collection the registered packet and the attempts stand for. */
  function CollectionOf(d: Design, registered: seq<Registered>, attempted: seq<Attempt>): Collection
  {
    Collection(d, registered, Observe(attempted))
  }

  lemma OutcomeIs(c: Collection, valid: seq<Pair>, invalid: seq<int>, excluded: seq<RunId>, unattempted: seq<RunId>)
    requires Acceptable(c) && Sound(c) && ReservesDone(c, Last(c.d) + 1, valid, invalid, excluded, unattempted)
    ensures AllValid(c, ValidReserves(c)) && valid == PairsAt(c, ValidReserves(c))
    ensures |valid| == |ValidReserves(c)| <= |InvalidPrimary(c)|
    ensures OutcomeOf(c)
         == Outcome(|IncludedPairs(c)| == c.d.primaries, |c.observed|,
                    |c.observed| - |c.d.conditions| * c.d.primaries, IncludedPairs(c), InvalidPrimary(c), invalid,
                    Replacements(InvalidPrimary(c), ValidReserves(c)), excluded, unattempted)
  {
    hide Acceptable, Sound, ValidSlots, InvalidSlots, ExcludedIds, UnattemptedIds, AllValid, IncludedPairs, PairOf;
    ReserveSlotsValid(c, Last(c.d) + 1);
    ReservesUsable(c);
  }

  /** What the loops ask of one slot: a reserve is attempted in order, whole and needed, and paired rows saw
      the same scenarios. */
  predicate SlotFine(c: Collection, slot: int)
  {
    (c.d.primaries < slot ==> ReserveOk(c, slot)) && (ValidSlot(c, slot) ==> Agrees(c, slot))
  }

  ghost predicate FirstRefused(c: Collection, slot: int)
  {
    && 1 <= slot <= Last(c.d) && !SlotFine(c, slot)
    && forall s | 1 <= s < slot :: SlotFine(c, s)
  }

  lemma PrimaryRefused(c: Collection, slot: int)
    requires 1 <= slot <= c.d.primaries && PrimariesAgree(c, slot) && !PrimariesAgree(c, slot + 1)
    ensures FirstRefused(c, slot)
  {
    hide ReserveOk, ValidSlot, Agrees;
  }

  lemma ReserveRefused(c: Collection, slot: int)
    requires c.d.primaries < slot <= Last(c.d) && PrimariesAgree(c, c.d.primaries + 1)
    requires ReservesFine(c, slot) && !ReservesFine(c, slot + 1)
    ensures FirstRefused(c, slot)
  {
    hide ReserveOk, ValidSlot, Agrees;
  }

  method ReconcileCollection(c: Collection, bySlot: map<int, seq<Registered>>) returns (r: Result<Outcome, Refusal>)
    requires Grouped(bySlot, c.runs)
    requires CountPrimary(c, c.runs) == |c.d.conditions| * c.d.primaries <==> Sound(c)
    ensures r.Ok? <==> Acceptable(c)
    ensures r.Ok? ==> r.value == OutcomeOf(c)
    ensures r.Err? ==> r.error.PrimaryIncomplete? || r.error.CollectionRefused?
    ensures r == Err(PrimaryIncomplete) <==> !Sound(c)
    ensures r.Err? && r.error.CollectionRefused? ==> FirstRefused(c, r.error.slot)
  {
    hide Sound, Acceptable, Grouped, PrimariesAgree, ReservesFine, PairsByPrimary, ReservesDone, AllValid, PairsAt,
         CountPrimary, ValidReserves, InvalidPrimary, IncludedPairs, Keyed, ExcludedIds, OutcomeOf, FirstRefused;
    AcceptableParts(c);
    var primaryAttempts := CountPrimaries(c);
    if primaryAttempts != |c.d.conditions| * c.d.primaries { return Err(PrimaryIncomplete); }
    var failed, validPrimary, invalidPrimary, excludedPrimary := PairPrimaries(c, bySlot);
    if failed.Some? {
      PrimaryRefused(c, failed.value);
      return Err(CollectionRefused(failed.value));
    }
    var wrong, valid, invalid, excluded, unattempted := PairReserves(c, bySlot, invalidPrimary, excludedPrimary);
    if wrong.Some? {
      ReserveRefused(c, wrong.value);
      return Err(CollectionRefused(wrong.value));
    }
    OutcomeIs(c, valid, invalid, excluded, unattempted);
    // the source's last guard, against more valid reserves than invalid primaries, cannot fire here
    var replacements, byPrimary := KeyReplacements(c, invalidPrimary, valid);
    var included := FillPrimaries(c, validPrimary, valid, byPrimary);
    r := Ok(Outcome(|included| == c.d.primaries, |c.observed|, |c.observed| - |c.d.conditions| * c.d.primaries,
                    included, invalidPrimary, invalid, replacements, excluded, unattempted));
  }

  /** An included pair names, for each condition, the run registered for it in the source slot, reports the
      agreements of that run's attempt as a share of the episodes, and carries the states it saw. */
  ghost predicate DataOfAttempts(d: Design, registered: seq<Registered>, attempted: seq<Attempt>, pairs: seq<Pair>)
  {
    forall p, q | p in pairs && q in registered && q.slot == p.sourceSlot ::
      && q.condition in p.runIds && p.runIds[q.condition] == q.runId && q.condition in p.rates
      && exists a <- attempted ::
           && a.runId == q.runId && a.valid && a.agreements.Some? && a.hashes == Some(p.hashes)
           && p.rates[q.condition] * d.episodes as real == a.agreements.value as real
  }

  lemma ReportedValid(c: Collection, p: Pair, r: Registered)
    requires Acceptable(c) && p in OutcomeOf(c).included && r in c.runs && r.slot == p.sourceSlot
    ensures r.runId in c.observed && c.observed[r.runId].valid && CarriesRun(c, p, r)
  {
    IncludedPairsReport(c);
    SourceIsSuccessful(c, p);
    hide *;
    ReportsRun(c, p, r);
    SuccessfulRun(c, p.sourceSlot, r);
  }

  lemma ReportsRun(c: Collection, p: Pair, r: Registered)
    requires Reports(c, p) && r in c.runs && r.slot == p.sourceSlot
    ensures CarriesRun(c, p, r)
  {
    hide CarriesRun;
  }

  lemma SuccessfulRun(c: Collection, slot: int, r: Registered)
    requires SuccessfulSlot(c, slot) && r in c.runs && r.slot == slot
    ensures r.runId in c.observed && c.observed[r.runId].valid
  {
  }

  lemma OutcomeReportsAttempts(d: Design, registered: seq<Registered>, attempted: seq<Attempt>)
    requires Acceptable(CollectionOf(d, registered, attempted))
    ensures DataOfAttempts(d, registered, attempted, OutcomeOf(CollectionOf(d, registered, attempted)).included)
  {
    var c := CollectionOf(d, registered, attempted);
    hide Acceptable, OutcomeOf, Observe;
    forall p, q | p in OutcomeOf(c).included && q in registered && q.slot == p.sourceSlot
      ensures && q.condition in p.runIds && p.runIds[q.condition] == q.runId && q.condition in p.rates
              && exists a <- attempted ::
                   && a.runId == q.runId && a.valid && a.agreements.Some? && a.hashes == Some(p.hashes)
                   && p.rates[q.condition] * d.episodes as real == a.agreements.value as real
    {
      ReportedValid(c, p, q);
      ObserveLooksUp(attempted, q.runId);
      assert c.observed[q.runId] in attempted;
    }
  }

  /** The attempts are reconciled exactly when the packet is whole, every attempt is bound and carries its
      data, and the collection is acceptable; the outcome is then the one specified for it. Otherwise the
      refusal names the first stage that fails, and in the last stage the first slot that does. */
  method ReconcilePairedRuns(d: Design, registered: seq<Registered>, attempted: seq<Attempt>)
    returns (r: Result<Outcome, Refusal>)
    requires d.episodes > 0
    ensures r.Ok? <==> RegisteredOk(d, registered) && AttemptsOk(d, ById(registered), attempted)
                       && Acceptable(CollectionOf(d, registered, attempted))
    ensures r.Ok? ==> r.value == OutcomeOf(CollectionOf(d, registered, attempted))
    ensures r.Ok? ==> DataOfAttempts(d, registered, attempted, r.value.included)
    ensures r == Err(PacketRefused) <==> !RegisteredOk(d, registered)
    ensures r == Err(AttemptsRefused)
            <==> RegisteredOk(d, registered) && !AttemptsOk(d, ById(registered), attempted)
    ensures r == Err(PrimaryIncomplete)
            <==> RegisteredOk(d, registered) && AttemptsOk(d, ById(registered), attempted)
                 && !Sound(CollectionOf(d, registered, attempted))
    ensures r.Err? && r.error.CollectionRefused? ==> FirstRefused(CollectionOf(d, registered, attempted), r.error.slot)
  {
    var packetOk, byId, bySlot := CheckRegistered(d, registered);
    assert packetOk ==> PacketOk(d, registered);
    hide RegisteredOk, AttemptsOk, Acceptable, Sound, ById, Observe, PacketOk, CountPrimary, Grouped, OutcomeOf,
         FirstRefused, DataOfAttempts;
    if !packetOk { return Err(PacketRefused); }
    var ok, observed := CheckAttempts(d, byId, attempted);
    if !ok { return Err(AttemptsRefused); }
    CheckedIsSound(d, registered, attempted);
    r := ReconcileCollection(Collection(d, registered, observed), bySlot);
    if r.Ok? { OutcomeReportsAttempts(d, registered, attempted); }
  }
}
