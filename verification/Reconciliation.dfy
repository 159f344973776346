/** What a paired-slot collection amounts to: which slots are valid, which reserve stands in for which
    primary, and where every attempted run ends up. */
module Reconciliation {
  import opened Wrappers

  type RunId = string

  datatype Use = Primary | Reserve

  /** Slots 1..primaries are primary, the next `reserves` are reserve slots; each registers one run per
      condition. The registered design has 25, 3, six conditions and 200 episodes. */
  datatype Design = Design(primaries: nat, reserves: nat, conditions: seq<string>, episodes: nat)

  datatype Registered = Registered(runId: RunId, slot: int, use: Use, condition: string, seed: string)

  datatype Attempt = Attempt(runId: RunId, slot: int, use: Use, condition: string, valid: bool,
                             invalidReason: Option<string>, bundleVerified: bool,
                             agreements: Option<int>, hashes: Option<seq<string>>)

  datatype Pair = Pair(primarySlot: int, sourceSlot: int, use: Use, hashes: seq<string>,
                       runIds: map<string, RunId>, rates: map<string, real>)

  datatype Replacement = Replacement(primarySlot: int, reserveSlot: int)

  datatype Outcome = Outcome(complete: bool, attemptedRuns: int, reserveAttempts: int, included: seq<Pair>,
                             invalidPrimary: seq<int>, invalidReserve: seq<int>,
                             replacements: seq<Replacement>, excluded: seq<RunId>, unattempted: seq<RunId>)

  predicate Distinct<T(==)>(s: seq<T>)
  {
    forall i, j :: 0 <= i < j < |s| ==> s[i] != s[j]
  }

  function Last(d: Design): int
  {
    d.primaries + d.reserves
  }

  // ---------------------------------------------------------------- the registered packet

  function Group(runs: seq<Registered>, slot: int): seq<Registered>
  {
    if runs == [] then []
    else
      var last := runs[|runs| - 1];
      Group(runs[..|runs| - 1], slot) + if last.slot == slot then [last] else []
  }

  predicate SlotUse(d: Design, r: Registered)
  {
    1 <= r.slot <= Last(d) && r.use == (if r.slot <= d.primaries then Primary else Reserve)
  }

  /** One run per condition, all on one scenario seed. */
  predicate GroupOk(d: Design, group: seq<Registered>)
  {
    && |group| == |d.conditions| && 0 < |group|
    && (forall i, j :: 0 <= i < j < |group| ==> group[i].condition != group[j].condition)
    && (forall c <- d.conditions :: exists r <- group :: r.condition == c)
    && (forall r <- group :: r.seed == group[0].seed)
  }

  /** The seed the slot's runs share. */
  function SeedOf(group: seq<Registered>): string
  {
    if group == [] then "" else group[0].seed
  }

  ghost predicate PacketOk(d: Design, runs: seq<Registered>)
  {
    && (forall i, j :: 0 <= i < j < |runs| ==> runs[i].runId != runs[j].runId)
    && (forall r <- runs :: SlotUse(d, r))
    && (forall slot | 1 <= slot <= Last(d) :: GroupOk(d, Group(runs, slot)))
    && (forall s, t | 1 <= s < t <= Last(d) :: SeedOf(Group(runs, s)) != SeedOf(Group(runs, t)))
  }

  lemma {:induction false} GroupHas(runs: seq<Registered>, slot: int, r: Registered)
    ensures r in Group(runs, slot) <==> r in runs && r.slot == slot
  {
    if runs != [] {
      var n := |runs| - 1;
      assert runs == runs[..n] + [runs[n]];
      GroupHas(runs[..n], slot, r);
    }
  }

  lemma {:induction false} GroupIdsDistinct(runs: seq<Registered>, slot: int)
    requires forall i, j :: 0 <= i < j < |runs| ==> runs[i].runId != runs[j].runId
    ensures var g := Group(runs, slot); forall i, j :: 0 <= i < j < |g| ==> g[i].runId != g[j].runId
  {
    if runs != [] {
      var n := |runs| - 1;
      GroupIdsDistinct(runs[..n], slot);
      var g := Group(runs[..n], slot);
      forall i | 0 <= i < |g| ensures g[i].runId != runs[n].runId {
        GroupHas(runs[..n], slot, g[i]);
      }
    }
  }

  // ---------------------------------------------------------------- what was collected

  /** The attempts by run, over a packet and attempts that passed their checks. */
  datatype Collection = Collection(d: Design, runs: seq<Registered>, observed: map<RunId, Attempt>)

  predicate Observed(c: Collection, group: seq<Registered>)
  {
    forall r <- group :: r.runId in c.observed
  }

  /** Every run of the slot was attempted, and every attempt is valid. */
  predicate ValidSlot(c: Collection, slot: int)
  {
    forall r <- Group(c.runs, slot) :: r.runId in c.observed && c.observed[r.runId].valid
  }

  predicate AttemptedSlot(c: Collection, slot: int)
  {
    Observed(c, Group(c.runs, slot))
  }

  function ValidSlots(c: Collection, lo: int, hi: int): seq<int>
    decreases hi - lo
  {
    if hi <= lo then []
    else ValidSlots(c, lo, hi - 1) + if ValidSlot(c, hi - 1) then [hi - 1] else []
  }

  function InvalidSlots(c: Collection, lo: int, hi: int): seq<int>
    decreases hi - lo
  {
    if hi <= lo then []
    else InvalidSlots(c, lo, hi - 1)
         + if AttemptedSlot(c, hi - 1) && !ValidSlot(c, hi - 1) then [hi - 1] else []
  }

  function ValidIds(c: Collection, group: seq<Registered>): seq<RunId>
  {
    if group == [] then []
    else
      var last := group[|group| - 1];
      ValidIds(c, group[..|group| - 1])
      + if last.runId in c.observed && c.observed[last.runId].valid then [last.runId] else []
  }

  /** The valid attempts of the slots that are not valid. */
  function ExcludedIds(c: Collection, lo: int, hi: int): seq<RunId>
    decreases hi - lo
  {
    if hi <= lo then []
    else ExcludedIds(c, lo, hi - 1)
         + if AttemptedSlot(c, hi - 1) && !ValidSlot(c, hi - 1) then ValidIds(c, Group(c.runs, hi - 1)) else []
  }

  function CountObserved(c: Collection, group: seq<Registered>): nat
  {
    if group == [] then 0
    else CountObserved(c, group[..|group| - 1]) + if group[|group| - 1].runId in c.observed then 1 else 0
  }

  function Ids(group: seq<Registered>): seq<RunId>
  {
    seq(|group|, i requires 0 <= i < |group| => group[i].runId)
  }

  function UnattemptedIds(c: Collection, lo: int, hi: int): seq<RunId>
    decreases hi - lo
  {
    if hi <= lo then []
    else
      var group := Group(c.runs, hi - 1);
      UnattemptedIds(c, lo, hi - 1) + if CountObserved(c, group) == 0 then Ids(group) else []
  }

  // ---------------------------------------------------------------- included pairs

  function RunIdsOf(group: seq<Registered>): map<string, RunId>
  {
    if group == [] then map[]
    else RunIdsOf(group[..|group| - 1])[group[|group| - 1].condition := group[|group| - 1].runId]
  }

  function RatesOf(c: Collection, group: seq<Registered>): map<string, real>
    requires forall r <- group :: r.runId in c.observed && c.observed[r.runId].agreements.Some?
    requires c.d.episodes > 0
  {
    if group == [] then map[]
    else
      var last := group[|group| - 1];
      var rate := c.observed[last.runId].agreements.value as real / c.d.episodes as real;
      RatesOf(c, group[..|group| - 1])[last.condition := rate]
  }

  /** Checked data: a valid attempt carries its agreements and state hashes. */
  ghost predicate Sound(c: Collection)
  {
    && PacketOk(c.d, c.runs) && c.d.episodes > 0
    && (forall id <- c.observed :: c.observed[id].valid ==>
          c.observed[id].agreements.Some? && c.observed[id].hashes.Some?)
    && (forall id <- c.observed :: exists r <- c.runs :: r.runId == id)
    && (forall slot | 1 <= slot <= c.d.primaries :: AttemptedSlot(c, slot))
  }

  function PairOf(c: Collection, slot: int): Pair
    requires Sound(c) && 1 <= slot <= Last(c.d) && ValidSlot(c, slot)
  {
    var group := Group(c.runs, slot);
    Pair(slot, slot, if slot <= c.d.primaries then Primary else Reserve,
         c.observed[group[0].runId].hashes.value, RunIdsOf(group), RatesOf(c, group))
  }

  /** The slot that fills each primary: itself when valid, else the reserve of the same rank. */
  function SourceOf(c: Collection, reserves: seq<int>, slot: int): (source: Option<int>)
    ensures source.Some? ==> (source.value == slot && ValidSlot(c, slot)) || source.value in reserves
  {
    if ValidSlot(c, slot) then Some(slot)
    else
      var rank := |InvalidSlots(c, 1, slot)|;
      if rank < |reserves| then Some(reserves[rank]) else None
  }

  function Included(c: Collection, reserves: seq<int>, hi: int): seq<Pair>
    requires Sound(c) && hi <= c.d.primaries + 1
    requires forall s <- reserves :: 1 <= s <= Last(c.d) && ValidSlot(c, s)
    decreases hi
  {
    if hi <= 1 then []
    else
      var source := SourceOf(c, reserves, hi - 1);
      Included(c, reserves, hi - 1)
      + if source.Some? then [PairOf(c, source.value).(primarySlot := hi - 1)] else []
  }

  function Sources(pairs: seq<Pair>): seq<int>
  {
    seq(|pairs|, i requires 0 <= i < |pairs| => pairs[i].sourceSlot)
  }

  // ---------------------------------------------------------------- where each run ends up

  /** How many included pairs carry the run. */
  function PairsWith(pairs: seq<Pair>, id: RunId): nat
  {
    if pairs == [] then 0
    else PairsWith(pairs[..|pairs| - 1], id) + if id in pairs[|pairs| - 1].runIds.Values then 1 else 0
  }

  lemma SlotsAreExact(c: Collection, lo: int, hi: int, slot: int)
    ensures multiset(ValidSlots(c, lo, hi))[slot] == if lo <= slot < hi && ValidSlot(c, slot) then 1 else 0
    ensures multiset(InvalidSlots(c, lo, hi))[slot]
         == if lo <= slot < hi && AttemptedSlot(c, slot) && !ValidSlot(c, slot) then 1 else 0
  {
    hide *;
    ValidSlotsExact(c, lo, hi, slot);
    InvalidSlotsExact(c, lo, hi, slot);
  }

  lemma {:induction false} ValidSlotsExact(c: Collection, lo: int, hi: int, slot: int)
    ensures multiset(ValidSlots(c, lo, hi))[slot] == if lo <= slot < hi && ValidSlot(c, slot) then 1 else 0
    decreases hi - lo
  {
    hide ValidSlot;
    if lo < hi {
      ValidSlotsExact(c, lo, hi - 1, slot);
      MultisetAppend(ValidSlots(c, lo, hi - 1), hi - 1, slot);
    }
  }

  lemma {:induction false} InvalidSlotsExact(c: Collection, lo: int, hi: int, slot: int)
    ensures multiset(InvalidSlots(c, lo, hi))[slot]
         == if lo <= slot < hi && AttemptedSlot(c, slot) && !ValidSlot(c, slot) then 1 else 0
    decreases hi - lo
  {
    hide ValidSlot, AttemptedSlot;
    if lo < hi {
      InvalidSlotsExact(c, lo, hi - 1, slot);
      MultisetAppend(InvalidSlots(c, lo, hi - 1), hi - 1, slot);
    }
  }

  lemma {:induction false} ValidIdsExact(c: Collection, group: seq<Registered>, r: Registered)
    requires forall i, j :: 0 <= i < j < |group| ==> group[i].runId != group[j].runId
    requires r in group
    ensures multiset(ValidIds(c, group))[r.runId]
         == if r.runId in c.observed && c.observed[r.runId].valid then 1 else 0
  {
    var n := |group| - 1;
    var rest := group[..n];
    assert group == rest + [group[n]];
    if r == group[n] {
      ValidIdsForeign(c, rest, r.runId);
    } else {
      assert group[n].runId != r.runId;
      ValidIdsExact(c, rest, r);
    }
  }

  lemma {:induction false} ValidIdsForeign(c: Collection, group: seq<Registered>, id: RunId)
    requires forall r <- group :: r.runId != id
    ensures multiset(ValidIds(c, group))[id] == 0
  {
    if group != [] {
      assert group[|group| - 1] in group;
      ValidIdsForeign(c, group[..|group| - 1], id);
    }
  }

  lemma {:induction false} ExcludedExact(c: Collection, lo: int, hi: int, r: Registered)
    requires Sound(c) && r in c.runs
    ensures multiset(ExcludedIds(c, lo, hi))[r.runId]
         == if lo <= r.slot < hi && AttemptedSlot(c, r.slot) && !ValidSlot(c, r.slot)
               && r.runId in c.observed && c.observed[r.runId].valid then 1 else 0
    decreases hi - lo
  {
    hide ValidSlot, AttemptedSlot, Sound;
    if lo < hi {
      ExcludedExact(c, lo, hi - 1, r);
      SlotIdsExact(c, hi - 1, r);
    }
  }

  lemma SlotIdsExact(c: Collection, slot: int, r: Registered)
    requires Sound(c) && r in c.runs
    ensures multiset(ValidIds(c, Group(c.runs, slot)))[r.runId]
         == if r.slot == slot && r.runId in c.observed && c.observed[r.runId].valid then 1 else 0
  {
    var group := Group(c.runs, slot);
    GroupHas(c.runs, slot, r);
    if r.slot == slot {
      GroupIdsDistinct(c.runs, slot);
      ValidIdsExact(c, group, r);
    } else {
      forall g <- group ensures g.runId != r.runId {
        GroupHas(c.runs, slot, g);
        if g.runId == r.runId { SameRun(c, g, r); }
      }
      ValidIdsForeign(c, group, r.runId);
    }
  }

  lemma SameRun(c: Collection, a: Registered, b: Registered)
    requires Sound(c) && a in c.runs && b in c.runs && a.runId == b.runId
    ensures a == b
  {
    var i :| 0 <= i < |c.runs| && c.runs[i] == a;
    var j :| 0 <= j < |c.runs| && c.runs[j] == b;
  }

  lemma {:induction false} RunIdsOfKeys(group: seq<Registered>, k: string)
    ensures k in RunIdsOf(group) ==> exists r <- group :: r.condition == k
  {
    if group != [] {
      var n := |group| - 1;
      RunIdsOfKeys(group[..n], k);
      assert forall r <- group[..n] :: r in group;
    }
  }

  lemma {:induction false} RunIdsOfHas(group: seq<Registered>, id: RunId)
    requires forall i, j :: 0 <= i < j < |group| ==> group[i].condition != group[j].condition
    ensures id in RunIdsOf(group).Values <==> exists r <- group :: r.runId == id
  {
    if group != [] {
      var n := |group| - 1;
      var rest := group[..n];
      RunIdsOfHas(rest, id);
      RunIdsOfKeys(rest, group[n].condition);
      ValuesAfter(RunIdsOf(rest), group[n].condition, group[n].runId, id);
      OneOfLast(group, id);
    }
  }

  lemma OneOfLast(group: seq<Registered>, id: RunId)
    requires group != []
    ensures var n := |group| - 1;
      (exists r <- group :: r.runId == id) <==> (exists r <- group[..n] :: r.runId == id) || group[n].runId == id
  {
    var n := |group| - 1;
    assert forall r <- group[..n] :: r in group;
    if r :| r in group && r.runId == id && r != group[n] { assert r in group[..n]; }
  }

  lemma ValuesAfter(m: map<string, RunId>, k: string, v: RunId, id: RunId)
    requires k !in m
    ensures id in m[k := v].Values <==> id in m.Values || id == v
  {
    if id in m.Values {
      var j :| j in m && m[j] == id;
      assert m[k := v][j] == id;
    }
    if id == v { assert m[k := v][k] == id; }
  }

  /** A pair carries a registered run exactly when it is drawn from that run's slot. */
  lemma PairCarries(c: Collection, slot: int, r: Registered)
    requires Sound(c) && r in c.runs && 1 <= slot <= Last(c.d) && ValidSlot(c, slot)
    ensures r.runId in PairOf(c, slot).runIds.Values <==> r.slot == slot
  {
    var group := Group(c.runs, slot);
    assert GroupOk(c.d, group);
    GroupHas(c.runs, slot, r);
    RunIdsOfHas(group, r.runId);
    if r.slot == slot { assert r in group; }
    if g :| g in group && g.runId == r.runId {
      GroupHas(c.runs, slot, g);
      SameRun(c, g, r);
    }
  }

  lemma IncludedNext(c: Collection, reserves: seq<int>, hi: int)
    requires Sound(c) && 2 <= hi <= c.d.primaries + 1
    requires forall s <- reserves :: 1 <= s <= Last(c.d) && ValidSlot(c, s)
    ensures var source := SourceOf(c, reserves, hi - 1);
      Sources(Included(c, reserves, hi))
      == Sources(Included(c, reserves, hi - 1)) + if source.Some? then [source.value] else []
  {
    hide ValidSlot, Sound, SourceOf;
    var source := SourceOf(c, reserves, hi - 1);
    if source.Some? {
      SourcesAppend(Included(c, reserves, hi - 1), PairOf(c, source.value).(primarySlot := hi - 1));
    }
  }

  lemma NextCarries(c: Collection, reserves: seq<int>, hi: int, r: Registered)
    requires Sound(c) && 2 <= hi <= c.d.primaries + 1 && r in c.runs
    requires forall s <- reserves :: 1 <= s <= Last(c.d) && ValidSlot(c, s)
    ensures var source := SourceOf(c, reserves, hi - 1);
      PairsWith(Included(c, reserves, hi), r.runId)
      == PairsWith(Included(c, reserves, hi - 1), r.runId) + if source == Some(r.slot) then 1 else 0
  {
    hide ValidSlot, Sound, SourceOf, PairsWith, PairOf;
    var source := SourceOf(c, reserves, hi - 1);
    var rest := Included(c, reserves, hi - 1);
    assert rest + [] == rest;
    if source.Some? {
      PairCarries(c, source.value, r);
      var pair := PairOf(c, source.value).(primarySlot := hi - 1);
      assert Included(c, reserves, hi) == rest + [pair];
      PairsWithAppend(rest, pair, r.runId);
    }
  }

  lemma MultisetAppend(s: seq<int>, x: int, k: int)
    ensures multiset(s + [x])[k] == multiset(s)[k] + if x == k then 1 else 0
  {
  }

  lemma {:induction false} IncludedCarries(c: Collection, reserves: seq<int>, hi: int, r: Registered)
    requires Sound(c) && hi <= c.d.primaries + 1 && r in c.runs
    requires forall s <- reserves :: 1 <= s <= Last(c.d) && ValidSlot(c, s)
    ensures PairsWith(Included(c, reserves, hi), r.runId) == multiset(Sources(Included(c, reserves, hi)))[r.slot]
    decreases hi
  {
    if 1 < hi {
      hide ValidSlot, Sound, SourceOf, Included, PairsWith, Sources;
      IncludedCarries(c, reserves, hi - 1, r);
      IncludedNext(c, reserves, hi);
      NextCarries(c, reserves, hi, r);
      var source := SourceOf(c, reserves, hi - 1);
      if source.Some? { MultisetAppend(Sources(Included(c, reserves, hi - 1)), source.value, r.slot); }
    } else {
      assert Included(c, reserves, hi) == [];
    }
  }

  lemma SourcesAppend(pairs: seq<Pair>, p: Pair)
    ensures Sources(pairs + [p]) == Sources(pairs) + [p.sourceSlot]
  {
  }

  lemma PairsWithAppend(pairs: seq<Pair>, p: Pair, id: RunId)
    ensures PairsWith(pairs + [p], id) == PairsWith(pairs, id) + if id in p.runIds.Values then 1 else 0
  {
    assert (pairs + [p])[..|pairs|] == pairs;
  }

  function Min(a: int, b: int): int
  {
    if a < b then a else b
  }

  /** `all` holds the valid slots and the first `n` reserves, where there are so many. */
  ghost predicate DrawnFrom(all: seq<int>, valid: seq<int>, reserves: seq<int>, n: nat)
  {
    multiset(all) == multiset(valid) + multiset(reserves[..Min(n, |reserves|)])
  }

  lemma FillStep(all: seq<int>, valid: seq<int>, reserves: seq<int>, n: nat, slot: int)
    requires DrawnFrom(all, valid, reserves, n)
    ensures DrawnFrom(all + [slot], valid + [slot], reserves, n)
    ensures DrawnFrom(all + if n < |reserves| then [reserves[n]] else [], valid, reserves, n + 1)
  {
    if n < |reserves| {
      assert reserves[..n + 1] == reserves[..n] + [reserves[n]];
    } else {
      assert all + [] == all;
    }
  }

  /** The pairs are drawn from the valid primaries and as many reserves as there are primaries to fill. */
  lemma {:induction false} IncludedSources(c: Collection, reserves: seq<int>, hi: int)
    requires Sound(c) && 1 <= hi <= c.d.primaries + 1
    requires forall s <- reserves :: 1 <= s <= Last(c.d) && ValidSlot(c, s)
    ensures DrawnFrom(Sources(Included(c, reserves, hi)), ValidSlots(c, 1, hi), reserves, |InvalidSlots(c, 1, hi)|)
    decreases hi
  {
    hide *;
    if hi == 1 {
      DrawnFirst(c, reserves);
    } else {
      IncludedSources(c, reserves, hi - 1);
      DrawnNext(c, reserves, hi);
    }
  }

  lemma DrawnFirst(c: Collection, reserves: seq<int>)
    requires Sound(c)
    requires forall s <- reserves :: 1 <= s <= Last(c.d) && ValidSlot(c, s)
    ensures DrawnFrom(Sources(Included(c, reserves, 1)), ValidSlots(c, 1, 1), reserves, |InvalidSlots(c, 1, 1)|)
  {
    hide Sound, ValidSlot;
    assert reserves[..0] == [];
    assert Included(c, reserves, 1) == [];
  }

  lemma DrawnNext(c: Collection, reserves: seq<int>, hi: int)
    requires Sound(c) && 2 <= hi <= c.d.primaries + 1
    requires forall s <- reserves :: 1 <= s <= Last(c.d) && ValidSlot(c, s)
    requires DrawnFrom(Sources(Included(c, reserves, hi - 1)), ValidSlots(c, 1, hi - 1), reserves,
                       |InvalidSlots(c, 1, hi - 1)|)
    ensures DrawnFrom(Sources(Included(c, reserves, hi)), ValidSlots(c, 1, hi), reserves, |InvalidSlots(c, 1, hi)|)
  {
    hide ValidSlot, Sound, Included, ValidSlots, InvalidSlots, Sources, DrawnFrom, SourceOf;
    var all := Sources(Included(c, reserves, hi - 1));
    var n := |InvalidSlots(c, 1, hi - 1)|;
    SlotSplit(c, hi);
    IncludedNext(c, reserves, hi);
    SourceCases(c, reserves, hi - 1);
    FillStep(all, ValidSlots(c, 1, hi - 1), reserves, n, hi - 1);
    assert all + [] == all;
  }

  lemma SourceCases(c: Collection, reserves: seq<int>, slot: int)
    ensures ValidSlot(c, slot) ==> SourceOf(c, reserves, slot) == Some(slot)
    ensures !ValidSlot(c, slot) && |InvalidSlots(c, 1, slot)| < |reserves| ==>
              SourceOf(c, reserves, slot) == Some(reserves[|InvalidSlots(c, 1, slot)|])
    ensures !ValidSlot(c, slot) && |InvalidSlots(c, 1, slot)| >= |reserves| ==>
              SourceOf(c, reserves, slot) == None
  {
    hide ValidSlot, InvalidSlots;
  }

  /** A primary slot is either valid or invalid. */
  lemma SlotSplit(c: Collection, hi: int)
    requires Sound(c) && 2 <= hi <= c.d.primaries + 1
    ensures ValidSlot(c, hi - 1) ==> ValidSlots(c, 1, hi) == ValidSlots(c, 1, hi - 1) + [hi - 1]
                                     && InvalidSlots(c, 1, hi) == InvalidSlots(c, 1, hi - 1)
    ensures !ValidSlot(c, hi - 1) ==> ValidSlots(c, 1, hi) == ValidSlots(c, 1, hi - 1)
                                      && InvalidSlots(c, 1, hi) == InvalidSlots(c, 1, hi - 1) + [hi - 1]
  {
    assert AttemptedSlot(c, hi - 1);
    hide ValidSlot, Sound, AttemptedSlot;
  }

  // ---------------------------------------------------------------- reserves

  function ValidReserves(c: Collection): seq<int>
  {
    ValidSlots(c, c.d.primaries + 1, Last(c.d) + 1)
  }

  function InvalidPrimary(c: Collection): seq<int>
  {
    InvalidSlots(c, 1, c.d.primaries + 1)
  }

  /** A reserve is attempted as a whole, after every earlier one, and only while a primary lacks a pair. */
  predicate ReserveOk(c: Collection, slot: int)
  {
    var n := CountObserved(c, Group(c.runs, slot));
    || n == 0
    || (&& n == |c.d.conditions|
        && (forall s | c.d.primaries < s < slot :: CountObserved(c, Group(c.runs, s)) != 0)
        && |ValidSlots(c, c.d.primaries + 1, slot)| < |InvalidPrimary(c)|)
  }

  /** The valid rows of a slot saw the same scenarios. */
  predicate Agrees(c: Collection, slot: int)
  {
    forall r, q :: r in Group(c.runs, slot) && q in Group(c.runs, slot)
                   && r.runId in c.observed && q.runId in c.observed
                   ==> c.observed[r.runId].hashes == c.observed[q.runId].hashes
  }

  ghost predicate Acceptable(c: Collection)
  {
    && Sound(c)
    && (forall slot | c.d.primaries < slot <= Last(c.d) :: ReserveOk(c, slot))
    && (forall slot | 1 <= slot <= Last(c.d) && ValidSlot(c, slot) :: Agrees(c, slot))
  }

  predicate Untouched(c: Collection, group: seq<Registered>)
  {
    forall r <- group :: r.runId !in c.observed
  }

  lemma GroupSplits(c: Collection, rest: seq<Registered>, last: Registered)
    ensures Observed(c, rest + [last]) <==> Observed(c, rest) && last.runId in c.observed
    ensures Untouched(c, rest + [last]) <==> Untouched(c, rest) && last.runId !in c.observed
  {
    assert forall r :: r in rest + [last] <==> r in rest || r == last;
  }

  lemma {:induction false} CountIsFull(c: Collection, group: seq<Registered>)
    ensures CountObserved(c, group) <= |group|
    ensures CountObserved(c, group) == |group| <==> Observed(c, group)
    ensures CountObserved(c, group) == 0 <==> Untouched(c, group)
  {
    if group != [] {
      hide Observed, Untouched;
      var n := |group| - 1;
      CountIsFull(c, group[..n]);
      GroupSplits(c, group[..n], group[n]);
      assert group == group[..n] + [group[n]];
    }
  }

  lemma ValidReserveNeeded(c: Collection, slot: int)
    requires Acceptable(c) && c.d.primaries < slot <= Last(c.d) && ValidSlot(c, slot)
    ensures |ValidSlots(c, c.d.primaries + 1, slot)| < |InvalidPrimary(c)|
  {
    var group := Group(c.runs, slot);
    assert ReserveOk(c, slot);
    assert GroupOk(c.d, group);
    assert Observed(c, group);
    hide Acceptable, ValidSlots, InvalidPrimary, Group, GroupOk;
    CountIsFull(c, group);
  }

  lemma {:induction false} ReservesFewEnough(c: Collection, hi: int)
    requires Acceptable(c) && c.d.primaries < hi <= Last(c.d) + 1
    ensures |ValidSlots(c, c.d.primaries + 1, hi)| <= |InvalidPrimary(c)|
    decreases hi
  {
    hide Acceptable, InvalidPrimary, ValidSlot;
    if c.d.primaries + 1 < hi {
      ReservesFewEnough(c, hi - 1);
      if ValidSlot(c, hi - 1) { ValidReserveNeeded(c, hi - 1); }
    }
  }

  lemma {:induction false} SlotsInRange(c: Collection, lo: int, hi: int)
    ensures forall s <- ValidSlots(c, lo, hi) :: lo <= s < hi && ValidSlot(c, s)
    ensures forall s <- InvalidSlots(c, lo, hi) :: lo <= s < hi && AttemptedSlot(c, s) && !ValidSlot(c, s)
    decreases hi - lo
  {
    hide ValidSlot, AttemptedSlot;
    if lo < hi { SlotsInRange(c, lo, hi - 1); }
  }

  lemma ReservesUsable(c: Collection)
    requires Acceptable(c)
    ensures Sound(c) && 1 <= c.d.primaries + 1 <= Last(c.d) + 1
    ensures forall s <- ValidReserves(c) :: 1 <= s <= Last(c.d) && ValidSlot(c, s)
    ensures |ValidReserves(c)| <= |InvalidPrimary(c)|
  {
    hide Acceptable, ValidSlot, Sound, ValidSlots, InvalidPrimary, Group, CountObserved;
    AcceptableIsSound(c);
    ReservesFewEnough(c, Last(c.d) + 1);
    ReservesInRange(c);
  }

  lemma ReservesInRange(c: Collection)
    ensures forall s <- ValidReserves(c) :: 1 <= s <= Last(c.d) && ValidSlot(c, s)
  {
    hide ValidSlot, ValidSlots, InvalidSlots, Group;
    SlotsInRange(c, c.d.primaries + 1, Last(c.d) + 1);
  }

  lemma AcceptableIsSound(c: Collection)
    requires Acceptable(c)
    ensures Sound(c)
  {
    hide Sound;
  }

  ghost function IncludedPairs(c: Collection): seq<Pair>
    requires Acceptable(c)
  {
    ReservesUsable(c);
    Included(c, ValidReserves(c), c.d.primaries + 1)
  }

  function Excluded(c: Collection): seq<RunId>
  {
    ExcludedIds(c, 1, c.d.primaries + 1) + ExcludedIds(c, c.d.primaries + 1, Last(c.d) + 1)
  }

  function Replacements(invalid: seq<int>, reserves: seq<int>): seq<Replacement>
    requires |reserves| <= |invalid|
  {
    seq(|reserves|, i requires 0 <= i < |reserves| => Replacement(invalid[i], reserves[i]))
  }

  ghost function OutcomeOf(c: Collection): Outcome
    requires Acceptable(c)
  {
    ReservesUsable(c);
    Outcome(|IncludedPairs(c)| == c.d.primaries, |c.observed|, |c.observed| - |c.d.conditions| * c.d.primaries,
            IncludedPairs(c), InvalidPrimary(c), InvalidSlots(c, c.d.primaries + 1, Last(c.d) + 1),
            Replacements(InvalidPrimary(c), ValidReserves(c)), Excluded(c),
            UnattemptedIds(c, c.d.primaries + 1, Last(c.d) + 1))
  }

  // ---------------------------------------------------------------- main results

  /** The pairs are drawn from all the valid primaries and all the valid reserves. */
  lemma PairsDrawnFrom(c: Collection)
    requires Acceptable(c)
    ensures multiset(Sources(IncludedPairs(c)))
         == multiset(ValidSlots(c, 1, c.d.primaries + 1)) + multiset(ValidReserves(c))
  {
    hide Acceptable, Sound, Included, ValidSlots, InvalidSlots, ValidReserves, Sources, ValidSlot;
    ReservesUsable(c);
    var reserves := ValidReserves(c);
    IncludedSources(c, reserves, c.d.primaries + 1);
    assert reserves[..|reserves|] == reserves;
  }

  /** Each valid slot is the source of one included pair, and no other slot is. */
  lemma EveryValidSlotIncluded(c: Collection, slot: int)
    requires Acceptable(c)
    ensures multiset(Sources(OutcomeOf(c).included))[slot]
         == if 1 <= slot <= Last(c.d) && ValidSlot(c, slot) then 1 else 0
  {
    hide *;
    IncludedOfOutcome(c);
    PairsDrawnFrom(c);
    SlotsAreExact(c, 1, c.d.primaries + 1, slot);
    SlotsAreExact(c, c.d.primaries + 1, Last(c.d) + 1, slot);
    MultisetSum(ValidSlots(c, 1, c.d.primaries + 1), ValidReserves(c), slot);
    ReservesAreSlots(c);
  }

  lemma ReservesAreSlots(c: Collection)
    ensures ValidReserves(c) == ValidSlots(c, c.d.primaries + 1, Last(c.d) + 1) && c.d.primaries <= Last(c.d)
  {
    hide ValidSlots;
  }

  lemma MultisetSum(a: seq<int>, b: seq<int>, k: int)
    ensures (multiset(a) + multiset(b))[k] == multiset(a)[k] + multiset(b)[k]
  {
  }

  lemma IncludedOfOutcome(c: Collection)
    requires Acceptable(c)
    ensures OutcomeOf(c).included == IncludedPairs(c)
  {
    hide Acceptable, IncludedPairs;
  }

  lemma PairsCarry(c: Collection, r: Registered)
    requires Acceptable(c) && r in c.runs
    ensures PairsWith(IncludedPairs(c), r.runId) == multiset(Sources(IncludedPairs(c)))[r.slot]
  {
    hide Acceptable, Sound, Included, ValidReserves, Sources, ValidSlot;
    ReservesUsable(c);
    IncludedCarries(c, ValidReserves(c), c.d.primaries + 1, r);
  }

  lemma ExcludedOnce(c: Collection, r: Registered)
    requires Acceptable(c) && r in c.runs
    ensures multiset(Excluded(c))[r.runId]
         == if !ValidSlot(c, r.slot) && r.runId in c.observed && c.observed[r.runId].valid then 1 else 0
  {
    hide Acceptable, Sound, ExcludedIds, ValidSlot, AttemptedSlot;
    ReservesUsable(c);
    ExcludedExact(c, 1, c.d.primaries + 1, r);
    ExcludedExact(c, c.d.primaries + 1, Last(c.d) + 1, r);
    WholeOrNot(c, r);
  }

  /** Every attempted run that is valid ends up once, in one included pair or once in the excluded list;
      every other registered run in neither. */
  lemma EveryValidRunOnce(c: Collection, r: Registered)
    requires Acceptable(c) && r in c.runs
    ensures PairsWith(OutcomeOf(c).included, r.runId) + multiset(OutcomeOf(c).excluded)[r.runId]
         == if r.runId in c.observed && c.observed[r.runId].valid then 1 else 0
  {
    hide Acceptable, Excluded, IncludedPairs, Sources, ValidSlot, AttemptedSlot, PairsWith;
    EveryValidSlotIncluded(c, r.slot);
    PairsCarry(c, r);
    ExcludedOnce(c, r);
    WholeOrNot(c, r);
  }

  /** The slot of an attempted run was attempted as a whole. */
  lemma WholeOrNot(c: Collection, r: Registered)
    requires Acceptable(c) && r in c.runs
    ensures 1 <= r.slot <= Last(c.d)
    ensures r.runId in c.observed ==> AttemptedSlot(c, r.slot)
    ensures ValidSlot(c, r.slot) ==> r.runId in c.observed && c.observed[r.runId].valid
  {
    assert SlotUse(c.d, r);
    GroupHas(c.runs, r.slot, r);
    var group := Group(c.runs, r.slot);
    assert GroupOk(c.d, group);
    CountIsFull(c, group);
    if r.slot > c.d.primaries { assert ReserveOk(c, r.slot); }
  }

  /** The k-th valid reserve stands in for the k-th invalid primary. */
  lemma ReserveFillsItsRank(c: Collection, k: nat)
    requires Acceptable(c) && k < |ValidReserves(c)|
    ensures k < |OutcomeOf(c).replacements| && k < |OutcomeOf(c).invalidPrimary|
    ensures var x := OutcomeOf(c).replacements[k];
      x.primarySlot == OutcomeOf(c).invalidPrimary[k] && x.reserveSlot == ValidReserves(c)[k]
      && exists p <- OutcomeOf(c).included :: p.primarySlot == x.primarySlot && p.sourceSlot == x.reserveSlot
  {
    hide Acceptable, Sound, Included, ValidSlots, InvalidSlots, ValidSlot;
    ReservesUsable(c);
    RankOfInvalid(c, c.d.primaries + 1, k);
    FilledPair(c, ValidReserves(c), c.d.primaries + 1, InvalidPrimary(c)[k]);
  }

  /** The rank of an invalid slot is the number of invalid slots before it. */
  lemma {:induction false} RankOfInvalid(c: Collection, hi: int, k: nat)
    requires k < |InvalidSlots(c, 1, hi)|
    ensures var slot := InvalidSlots(c, 1, hi)[k];
      1 <= slot < hi && |InvalidSlots(c, 1, slot)| == k && !ValidSlot(c, slot)
    decreases hi
  {
    hide ValidSlot, AttemptedSlot;
    if k < |InvalidSlots(c, 1, hi - 1)| { RankOfInvalid(c, hi - 1, k); }
  }

  lemma {:induction false} FilledPair(c: Collection, reserves: seq<int>, hi: int, slot: int)
    requires Sound(c) && 1 <= slot < hi <= c.d.primaries + 1
    requires forall s <- reserves :: 1 <= s <= Last(c.d) && ValidSlot(c, s)
    requires SourceOf(c, reserves, slot).Some?
    ensures exists p <- Included(c, reserves, hi) :: p.primarySlot == slot
                                                   && p.sourceSlot == SourceOf(c, reserves, slot).value
    decreases hi
  {
    hide ValidSlot, Sound, SourceOf;
    if slot == hi - 1 {
      var pair := PairOf(c, SourceOf(c, reserves, slot).value).(primarySlot := slot);
      assert pair in Included(c, reserves, hi);
    } else {
      FilledPair(c, reserves, hi - 1, slot);
      assert forall p <- Included(c, reserves, hi - 1) :: p in Included(c, reserves, hi);
    }
  }

  /** Each primary adds at most one pair, its own. */
  lemma IncludedGrows(c: Collection, reserves: seq<int>, hi: int) returns (more: seq<Pair>)
    requires Sound(c) && 1 < hi <= c.d.primaries + 1
    requires forall s <- reserves :: 1 <= s <= Last(c.d) && ValidSlot(c, s)
    ensures Included(c, reserves, hi) == Included(c, reserves, hi - 1) + more
    ensures |more| <= 1 && forall p <- more :: p.primarySlot == hi - 1
  {
    hide ValidSlot, Sound, SourceOf, PairOf;
    var source := SourceOf(c, reserves, hi - 1);
    more := if source.Some? then [PairOf(c, source.value).(primarySlot := hi - 1)] else [];
  }

  /** Included pairs stand for different primaries, in order. */
  lemma {:induction false} PrimariesIncrease(c: Collection, reserves: seq<int>, hi: int)
    requires Sound(c) && hi <= c.d.primaries + 1
    requires forall s <- reserves :: 1 <= s <= Last(c.d) && ValidSlot(c, s)
    ensures var pairs := Included(c, reserves, hi);
      && (forall p <- pairs :: 1 <= p.primarySlot < hi)
      && (forall i, j :: 0 <= i < j < |pairs| ==> pairs[i].primarySlot < pairs[j].primarySlot)
    decreases hi
  {
    if 1 < hi {
      hide *;
      PrimariesIncrease(c, reserves, hi - 1);
      var more := IncludedGrows(c, reserves, hi);
      IncreasingAppend(Included(c, reserves, hi - 1), more, hi);
    }
  }

  lemma IncreasingAppend(pairs: seq<Pair>, more: seq<Pair>, hi: int)
    requires (forall p <- pairs :: 1 <= p.primarySlot < hi - 1) && 1 < hi
    requires forall i, j :: 0 <= i < j < |pairs| ==> pairs[i].primarySlot < pairs[j].primarySlot
    requires |more| <= 1 && forall p <- more :: p.primarySlot == hi - 1
    ensures forall p <- pairs + more :: 1 <= p.primarySlot < hi
    ensures forall i, j :: 0 <= i < j < |pairs + more| ==> (pairs + more)[i].primarySlot < (pairs + more)[j].primarySlot
  {
  }

  lemma MultiplicityOneIsDistinct(s: seq<int>)
    requires forall x <- s :: multiset(s)[x] <= 1
    ensures Distinct(s)
  {
    forall i, j | 0 <= i < j < |s| ensures s[i] != s[j] {
      var a, b := s[..j], s[j..];
      assert s == a + b;
      assert multiset(s)[s[i]] == multiset(a)[s[i]] + multiset(b)[s[i]];
      assert s[i] in a && s[j] in b;
    }
  }

  /** No primary is filled twice and no slot is used twice. */
  lemma PairsAreDistinct(c: Collection)
    requires Acceptable(c)
    ensures var pairs := OutcomeOf(c).included;
      && (forall i, j :: 0 <= i < j < |pairs| ==> pairs[i].primarySlot < pairs[j].primarySlot)
      && Distinct(Sources(pairs))
  {
    hide Acceptable, Sound, Included, ValidReserves, Sources, ValidSlot;
    ReservesUsable(c);
    PrimariesIncrease(c, ValidReserves(c), c.d.primaries + 1);
    forall slot <- Sources(OutcomeOf(c).included) ensures multiset(Sources(OutcomeOf(c).included))[slot] <= 1 {
      EveryValidSlotIncluded(c, slot);
    }
    MultiplicityOneIsDistinct(Sources(OutcomeOf(c).included));
  }

  lemma SlotTouched(c: Collection, r: Registered)
    requires Acceptable(c) && r in c.runs
    ensures r.runId in c.observed ==> CountObserved(c, Group(c.runs, r.slot)) != 0
    ensures CountObserved(c, Group(c.runs, r.slot)) != 0 && r.use == Reserve ==> r.runId in c.observed
  {
    assert SlotUse(c.d, r);
    GroupHas(c.runs, r.slot, r);
    CountIsFull(c, Group(c.runs, r.slot));
    assert GroupOk(c.d, Group(c.runs, r.slot));
    if r.use == Reserve { assert ReserveOk(c, r.slot); }
  }

  /** The attempted reserves are the first ones, each attempted as a whole. */
  lemma AttemptedReservesArePrefix(c: Collection, r: Registered, q: Registered)
    requires Acceptable(c) && r in c.runs && q in c.runs
    requires r.use == Reserve && r.slot <= q.slot && q.runId in c.observed
    ensures r.runId in c.observed
  {
    hide Acceptable, Group, CountObserved, ValidSlots, InvalidPrimary;
    ReserveIsOk(c, r);
    ReserveIsOk(c, q);
    SlotTouched(c, q);
    SlotTouched(c, r);
  }

  lemma ReserveIsOk(c: Collection, r: Registered)
    requires Acceptable(c) && r in c.runs
    ensures SlotUse(c.d, r) && (c.d.primaries < r.slot ==> ReserveOk(c, r.slot))
  {
    hide ReserveOk, Agrees, AttemptedSlot, ValidSlot, GroupOk;
  }

  lemma {:induction false} PrimariesSplit(c: Collection, hi: int)
    requires Sound(c) && 1 <= hi <= c.d.primaries + 1
    ensures |ValidSlots(c, 1, hi)| + |InvalidSlots(c, 1, hi)| == hi - 1
    decreases hi
  {
    if 1 < hi {
      SlotSplit(c, hi);
      hide Sound, ValidSlots, InvalidSlots, ValidSlot;
      PrimariesSplit(c, hi - 1);
    }
  }

  lemma SameSize(all: seq<int>, a: seq<int>, b: seq<int>)
    requires multiset(all) == multiset(a) + multiset(b)
    ensures |all| == |a| + |b|
  {
    assert |multiset(all)| == |all| && |multiset(a)| == |a| && |multiset(b)| == |b|;
  }

  /** The collection is complete exactly when as many reserves were valid as primaries were not, and
      otherwise the shortfall is the number of primaries left without a pair. */
  lemma CompleteIffFilled(c: Collection)
    requires Acceptable(c)
    ensures |OutcomeOf(c).included| == c.d.primaries - |InvalidPrimary(c)| + |ValidReserves(c)|
    ensures OutcomeOf(c).complete <==> |ValidReserves(c)| == |InvalidPrimary(c)|
  {
    hide Acceptable, Sound, Included, IncludedPairs, ValidSlots, InvalidSlots, ValidReserves;
    ReservesUsable(c);
    PairsDrawnFrom(c);
    PrimariesSplit(c, c.d.primaries + 1);
    SameSize(Sources(IncludedPairs(c)), ValidSlots(c, 1, c.d.primaries + 1), ValidReserves(c));
  }

  // ---------------------------------------------------------------- counts by slot

  function SumObserved(c: Collection, runs: seq<Registered>, hi: int): nat
  {
    if hi <= 1 then 0 else SumObserved(c, runs, hi - 1) + CountObserved(c, Group(runs, hi - 1))
  }

  lemma {:induction false} SumAppend(c: Collection, runs: seq<Registered>, last: Registered, hi: int)
    ensures SumObserved(c, runs + [last], hi)
         == SumObserved(c, runs, hi) + if 1 <= last.slot < hi && last.runId in c.observed then 1 else 0
    decreases hi
  {
    if 1 < hi {
      SumAppend(c, runs, last, hi - 1);
      assert (runs + [last])[..|runs|] == runs;
      var group := Group(runs, hi - 1);
      assert (group + [last])[..|group|] == group;
      assert group + [] == group;
    }
  }

  lemma {:induction false} SumOfNone(c: Collection, hi: int)
    ensures SumObserved(c, [], hi) == 0
    decreases hi
  {
    if 1 < hi { SumOfNone(c, hi - 1); }
  }

  function CountPrimary(c: Collection, runs: seq<Registered>): nat
  {
    if runs == [] then 0
    else
      var last := runs[|runs| - 1];
      CountPrimary(c, runs[..|runs| - 1]) + if last.use == Primary && last.runId in c.observed then 1 else 0
  }

  lemma {:induction false} CountBySlot(c: Collection, runs: seq<Registered>, hi: int)
    requires forall r <- runs :: SlotUse(c.d, r)
    ensures hi == c.d.primaries + 1 ==> CountPrimary(c, runs) == SumObserved(c, runs, hi)
    ensures hi == Last(c.d) + 1 ==> CountObserved(c, runs) == SumObserved(c, runs, hi)
  {
    hide SumObserved;
    if runs == [] {
      SumOfNone(c, hi);
    } else {
      var n := |runs| - 1;
      assert runs == runs[..n] + [runs[n]];
      assert SlotUse(c.d, runs[n]);
      CountBySlot(c, runs[..n], hi);
      SumAppend(c, runs[..n], runs[n], hi);
    }
  }

  function Times(k: nat, n: int): nat
  {
    if n <= 0 then 0 else Times(k, n - 1) + k
  }

  lemma {:induction false} TimesIs(k: nat, n: nat)
    ensures Times(k, n) == k * n
  {
    if n != 0 { TimesIs(k, n - 1); }
  }

  /** Slots up to a bound are all attempted exactly when their attempts number as many as their runs. */
  lemma {:induction false} FullSum(c: Collection, hi: int)
    requires PacketOk(c.d, c.runs) && 1 <= hi <= Last(c.d) + 1
    ensures SumObserved(c, c.runs, hi) <= Times(|c.d.conditions|, hi - 1)
    ensures SumObserved(c, c.runs, hi) == Times(|c.d.conditions|, hi - 1) <==> AllAttempted(c, hi)
    decreases hi
  {
    if 1 < hi {
      SlotCount(c, hi - 1);
      hide PacketOk, CountObserved, AttemptedSlot, AllAttempted;
      FullSum(c, hi - 1);
      AllAttemptedNext(c, hi);
    } else {
      hide *;
      FullSumOfNone(c);
    }
  }

  ghost predicate AllAttempted(c: Collection, hi: int)
  {
    forall slot | 1 <= slot < hi :: AttemptedSlot(c, slot)
  }

  lemma AllAttemptedNext(c: Collection, hi: int)
    requires 1 < hi
    ensures AllAttempted(c, hi) <==> AllAttempted(c, hi - 1) && AttemptedSlot(c, hi - 1)
  {
    hide AttemptedSlot;
  }

  lemma FullSumOfNone(c: Collection)
    ensures SumObserved(c, c.runs, 1) == Times(|c.d.conditions|, 0) && AllAttempted(c, 1)
  {
  }

  lemma SlotCount(c: Collection, slot: int)
    requires PacketOk(c.d, c.runs) && 1 <= slot <= Last(c.d)
    ensures CountObserved(c, Group(c.runs, slot)) <= |c.d.conditions|
    ensures CountObserved(c, Group(c.runs, slot)) == |c.d.conditions| <==> AttemptedSlot(c, slot)
  {
    assert GroupOk(c.d, Group(c.runs, slot));
    hide PacketOk, Group, CountObserved, Observed;
    CountIsFull(c, Group(c.runs, slot));
  }

  /** How many reserve slots were attempted. */
  function AttemptedReserves(c: Collection, hi: int): nat
    decreases hi
  {
    if hi <= c.d.primaries + 1 then 0
    else AttemptedReserves(c, hi - 1) + if CountObserved(c, Group(c.runs, hi - 1)) != 0 then 1 else 0
  }

  lemma ReserveCount(c: Collection, slot: int)
    requires Acceptable(c) && c.d.primaries < slot <= Last(c.d)
    ensures CountObserved(c, Group(c.runs, slot)) in {0, |c.d.conditions|}
  {
    assert ReserveOk(c, slot);
  }

  lemma PrimarySum(c: Collection)
    requires Acceptable(c)
    ensures SumObserved(c, c.runs, c.d.primaries + 1) == Times(|c.d.conditions|, c.d.primaries)
  {
    AcceptableIsSound(c);
    hide Acceptable, AttemptedSlot, SumObserved, PacketOk;
    FullSum(c, c.d.primaries + 1);
  }

  lemma {:induction false} ReserveSum(c: Collection, hi: int)
    requires Acceptable(c) && c.d.primaries < hi <= Last(c.d) + 1
    ensures SumObserved(c, c.runs, hi) == Times(|c.d.conditions|, c.d.primaries + AttemptedReserves(c, hi))
    decreases hi
  {
    hide Acceptable, Group, CountObserved;
    if c.d.primaries + 1 < hi {
      ReserveCount(c, hi - 1);
      ReserveSum(c, hi - 1);
    } else {
      PrimarySum(c);
    }
  }

  lemma {:induction false} CountOfKeys(c: Collection, runs: seq<Registered>, keys: set<RunId>)
    requires forall i, j :: 0 <= i < j < |runs| ==> runs[i].runId != runs[j].runId
    requires forall id <- keys :: id in c.observed && exists r <- runs :: r.runId == id
    requires forall r <- runs :: r.runId in c.observed ==> r.runId in keys
    ensures |keys| == CountObserved(c, runs)
  {
    if runs == [] {
      assert keys == {};
    } else {
      var n := |runs| - 1;
      var id := runs[n].runId;
      assert runs == runs[..n] + [runs[n]];
      CountOfKeys(c, runs[..n], keys - {id});
      if id in keys { assert |keys - {id}| == |keys| - 1; } else { assert keys - {id} == keys; }
    }
  }

  lemma AttemptsBySlot(c: Collection)
    requires Sound(c)
    ensures |c.observed| == SumObserved(c, c.runs, Last(c.d) + 1)
  {
    hide CountObserved, SumObserved, AttemptedSlot, GroupOk, Group;
    assert forall r <- c.runs :: SlotUse(c.d, r);
    assert |c.observed.Keys| == |c.observed|;
    CountOfKeys(c, c.runs, c.observed.Keys);
    CountBySlot(c, c.runs, Last(c.d) + 1);
  }

  /** Attempts come in whole slots: all the primaries and the attempted reserves. */
  lemma AttemptsComeInSlots(c: Collection)
    requires Acceptable(c)
    ensures var m := AttemptedReserves(c, Last(c.d) + 1);
      && OutcomeOf(c).attemptedRuns == |c.d.conditions| * (c.d.primaries + m)
      && OutcomeOf(c).reserveAttempts == |c.d.conditions| * m
  {
    hide Acceptable, Sound, IncludedPairs, Excluded, UnattemptedIds, SumObserved, Times, AttemptedReserves;
    var m := AttemptedReserves(c, Last(c.d) + 1);
    AcceptableIsSound(c);
    AttemptsBySlot(c);
    ReserveSum(c, Last(c.d) + 1);
    TimesIs(|c.d.conditions|, c.d.primaries + m);
    assert |c.d.conditions| * (c.d.primaries + m) == |c.d.conditions| * c.d.primaries + |c.d.conditions| * m;
  }
}
