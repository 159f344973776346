/** What a reconciled outcome says about the registered runs and their attempts: the data each included
    pair reports, and which slots and runs each list names. */
module ReconciledOutcome {
  import opened Wrappers
  import opened Reconciliation

  // ---------------------------------------------------------------- data of a pair

  ghost predicate OneEach(group: seq<Registered>)
  {
    forall i, j :: 0 <= i < j < |group| ==> group[i].condition != group[j].condition
  }

  predicate Registers(group: seq<Registered>, condition: string)
  {
    exists r <- group :: r.condition == condition
  }

  lemma RegistersNext(rest: seq<Registered>, last: Registered, condition: string)
    ensures Registers(rest + [last], condition) <==> Registers(rest, condition) || last.condition == condition
  {
    assert forall r :: r in rest + [last] <==> r in rest || r == last;
  }

  lemma LastIsNew(rest: seq<Registered>, last: Registered)
    requires OneEach(rest + [last])
    ensures OneEach(rest) && forall r <- rest :: r.condition != last.condition
  {
    var all := rest + [last];
    forall i, j | 0 <= i < j < |rest|
      ensures rest[i].condition != rest[j].condition
    {
      assert all[i].condition != all[j].condition;
    }
    forall r <- rest
      ensures r.condition != last.condition
    {
      var i :| 0 <= i < |rest| && rest[i] == r;
      assert all[i].condition != all[|rest|].condition;
    }
  }

  lemma {:induction false} RunIdsAre(group: seq<Registered>)
    requires OneEach(group)
    ensures forall k :: k in RunIdsOf(group) <==> Registers(group, k)
    ensures forall r <- group :: r.condition in RunIdsOf(group) && RunIdsOf(group)[r.condition] == r.runId
  {
    hide OneEach, Registers;
    if group != [] {
      var n := |group| - 1;
      assert group == group[..n] + [group[n]];
      LastIsNew(group[..n], group[n]);
      RunIdsAre(group[..n]);
      forall k
        ensures Registers(group, k) <==> Registers(group[..n], k) || group[n].condition == k
      {
        RegistersNext(group[..n], group[n], k);
      }
    } else {
      NoneRegistered();
    }
  }

  lemma NoneRegistered()
    ensures forall k :: !Registers([], k)
  {
  }

  function RateOf(c: Collection, r: Registered): real
    requires c.d.episodes > 0 && r.runId in c.observed && c.observed[r.runId].agreements.Some?
  {
    c.observed[r.runId].agreements.value as real / c.d.episodes as real
  }

  predicate AllAgreed(c: Collection, group: seq<Registered>)
  {
    forall r <- group :: r.runId in c.observed && c.observed[r.runId].agreements.Some?
  }

  lemma {:induction false} RatesAre(c: Collection, group: seq<Registered>)
    requires OneEach(group) && c.d.episodes > 0 && AllAgreed(c, group)
    ensures forall k :: k in RatesOf(c, group) <==> Registers(group, k)
    ensures forall r <- group :: r.condition in RatesOf(c, group) && RatesOf(c, group)[r.condition] == RateOf(c, r)
  {
    hide OneEach, Registers;
    if group != [] {
      var n := |group| - 1;
      assert group == group[..n] + [group[n]];
      LastIsNew(group[..n], group[n]);
      RatesAre(c, group[..n]);
      RateOfLast(c, group[..n], group[n]);
      hide RateOf, RatesOf;
      forall k
        ensures Registers(group, k) <==> Registers(group[..n], k) || group[n].condition == k
      {
        RegistersNext(group[..n], group[n], k);
      }
    } else {
      NoneRegistered();
    }
  }

  lemma RateOfLast(c: Collection, rest: seq<Registered>, last: Registered)
    requires c.d.episodes > 0 && AllAgreed(c, rest + [last])
    ensures AllAgreed(c, rest) && last.runId in c.observed && c.observed[last.runId].agreements.Some?
    ensures RatesOf(c, rest + [last]) == RatesOf(c, rest)[last.condition := RateOf(c, last)]
  {
    assert forall r :: r in rest + [last] <==> r in rest || r == last;
    assert (rest + [last])[..|rest|] == rest;
  }

  /** A rate times the number of episodes is the number of agreements. */
  lemma RateTimes(c: Collection, r: Registered)
    requires c.d.episodes > 0 && r.runId in c.observed && c.observed[r.runId].agreements.Some?
    ensures RateOf(c, r) * c.d.episodes as real == c.observed[r.runId].agreements.value as real
  {
  }

  /** The pair carries, for exactly the conditions its source slot registers, the run, its agreement rate
      and the states all of them saw. */
  ghost predicate Reports(c: Collection, p: Pair)
  {
    && 1 <= p.sourceSlot <= Last(c.d)
    && (p.use == Primary <==> p.sourceSlot <= c.d.primaries)
    && (forall k :: k in p.runIds <==> exists r <- c.runs :: r.slot == p.sourceSlot && r.condition == k)
    && (forall k :: k in p.rates <==> k in p.runIds)
    && (forall k <- c.d.conditions :: k in p.runIds)
    && (forall r <- c.runs | r.slot == p.sourceSlot :: CarriesRun(c, p, r))
  }

  predicate CarriesRun(c: Collection, p: Pair, r: Registered)
  {
    && r.condition in p.runIds && p.runIds[r.condition] == r.runId
    && r.runId in c.observed && c.observed[r.runId].agreements.Some?
    && r.condition in p.rates
    && p.rates[r.condition] * c.d.episodes as real == c.observed[r.runId].agreements.value as real
    && c.observed[r.runId].hashes == Some(p.hashes)
  }

  lemma GroupFacts(c: Collection, slot: int)
    requires Sound(c) && 1 <= slot <= Last(c.d)
    ensures var group := Group(c.runs, slot);
      && group != [] && OneEach(group) && c.d.episodes > 0
      && (forall k <- c.d.conditions :: Registers(group, k))
  {
    assert GroupOk(c.d, Group(c.runs, slot));
    hide Group, AttemptedSlot;
  }

  lemma ValidData(c: Collection, slot: int, r: Registered)
    requires Sound(c) && ValidSlot(c, slot) && r in Group(c.runs, slot)
    ensures r.runId in c.observed && c.observed[r.runId].agreements.Some? && c.observed[r.runId].hashes.Some?
  {
    hide PacketOk, Group, AttemptedSlot;
  }

  lemma GroupIs(c: Collection, slot: int)
    ensures forall r :: r in Group(c.runs, slot) <==> r in c.runs && r.slot == slot
    ensures forall k :: Registers(Group(c.runs, slot), k) <==> exists r <- c.runs :: r.slot == slot && r.condition == k
  {
    hide Group;
    forall r: Registered
      ensures r in Group(c.runs, slot) <==> r in c.runs && r.slot == slot
    {
      GroupHas(c.runs, slot, r);
    }
  }

  lemma GroupIsAgreed(c: Collection, slot: int)
    requires Sound(c) && ValidSlot(c, slot)
    ensures AllAgreed(c, Group(c.runs, slot))
  {
    hide Sound, ValidSlot, Group;
    forall r <- Group(c.runs, slot)
      ensures r.runId in c.observed && c.observed[r.runId].agreements.Some?
    {
      ValidData(c, slot, r);
    }
  }

  /** The pair of a valid slot reports the data of each of its runs. */
  lemma PairCarries(c: Collection, slot: int, r: Registered, primary: int)
    requires Sound(c) && 1 <= slot <= Last(c.d) && ValidSlot(c, slot) && Agrees(c, slot) && r in Group(c.runs, slot)
    ensures CarriesRun(c, PairOf(c, slot).(primarySlot := primary), r)
  {
    hide *;
    GroupFacts(c, slot);
    GroupIsAgreed(c, slot);
    ValidData(c, slot, r);
    PairIs(c, slot);
    SameHashes(c, slot, Group(c.runs, slot)[0], r);
    RunIdsAre(Group(c.runs, slot));
    RatesAre(c, Group(c.runs, slot));
    RateTimes(c, r);
    CarriesFrom(c, PairOf(c, slot).(primarySlot := primary), r);
  }

  lemma CarriesFrom(c: Collection, p: Pair, r: Registered)
    requires c.d.episodes > 0 && r.runId in c.observed && c.observed[r.runId].agreements.Some?
    requires r.condition in p.runIds && p.runIds[r.condition] == r.runId
    requires r.condition in p.rates && p.rates[r.condition] == RateOf(c, r)
    requires RateOf(c, r) * c.d.episodes as real == c.observed[r.runId].agreements.value as real
    requires c.observed[r.runId].hashes == Some(p.hashes)
    ensures CarriesRun(c, p, r)
  {
    hide RateOf;
  }

  lemma SameHashes(c: Collection, slot: int, q: Registered, r: Registered)
    requires Agrees(c, slot) && q in Group(c.runs, slot) && r in Group(c.runs, slot)
    requires q.runId in c.observed && r.runId in c.observed
    ensures c.observed[q.runId].hashes == c.observed[r.runId].hashes
  {
    hide Group;
  }

  lemma PairReports(c: Collection, slot: int, primary: int)
    requires Sound(c) && 1 <= slot <= Last(c.d) && ValidSlot(c, slot) && Agrees(c, slot)
    ensures Reports(c, PairOf(c, slot).(primarySlot := primary))
  {
    hide *;
    GroupFacts(c, slot);
    GroupIs(c, slot);
    GroupIsAgreed(c, slot);
    PairIs(c, slot);
    RunIdsAre(Group(c.runs, slot));
    RatesAre(c, Group(c.runs, slot));
    var p := PairOf(c, slot).(primarySlot := primary);
    forall r <- c.runs | r.slot == slot
      ensures CarriesRun(c, p, r)
    {
      PairCarries(c, slot, r, primary);
    }
    ReportsFrom(c, p);
  }

  lemma ReportsFrom(c: Collection, p: Pair)
    requires 1 <= p.sourceSlot <= Last(c.d) && (p.use == Primary <==> p.sourceSlot <= c.d.primaries)
    requires forall k :: k in p.runIds <==> Registers(Group(c.runs, p.sourceSlot), k)
    requires forall k :: k in p.rates <==> Registers(Group(c.runs, p.sourceSlot), k)
    requires forall k <- c.d.conditions :: Registers(Group(c.runs, p.sourceSlot), k)
    requires forall r <- c.runs | r.slot == p.sourceSlot :: CarriesRun(c, p, r)
    ensures Reports(c, p)
  {
    GroupIs(c, p.sourceSlot);
    hide Registers, CarriesRun, Group;
  }

  lemma PairIs(c: Collection, slot: int)
    requires Sound(c) && 1 <= slot <= Last(c.d) && ValidSlot(c, slot)
    ensures var group := Group(c.runs, slot);
      && group != [] && group[0] in group && group[0].runId in c.observed && c.observed[group[0].runId].hashes.Some?
      && AllAgreed(c, group) && c.d.episodes > 0
      && PairOf(c, slot) == Pair(slot, slot, if slot <= c.d.primaries then Primary else Reserve,
                                 c.observed[group[0].runId].hashes.value, RunIdsOf(group), RatesOf(c, group))
  {
    GroupFacts(c, slot);
    GroupIsAgreed(c, slot);
    ValidData(c, slot, Group(c.runs, slot)[0]);
    hide Group, RunIdsOf, RatesOf, PacketOk, AttemptedSlot, ValidSlot;
  }

  lemma {:induction false} IncludedReport(c: Collection, reserves: seq<int>, hi: int)
    requires Sound(c) && hi <= c.d.primaries + 1
    requires forall s <- reserves :: 1 <= s <= Last(c.d) && ValidSlot(c, s)
    requires forall slot | 1 <= slot <= Last(c.d) && ValidSlot(c, slot) :: Agrees(c, slot)
    ensures forall p <- Included(c, reserves, hi) :: Reports(c, p)
    decreases hi
  {
    hide Sound, ValidSlot, Agrees, Reports, PairOf, SourceOf;
    if 1 < hi {
      IncludedReport(c, reserves, hi - 1);
      var source := SourceOf(c, reserves, hi - 1);
      if source.Some? {
        PairReports(c, source.value, hi - 1);
      }
    }
  }

  /** Every included pair reports the data of its source slot. */
  lemma IncludedPairsReport(c: Collection)
    requires Acceptable(c)
    ensures forall p <- OutcomeOf(c).included :: Reports(c, p)
  {
    ValidSlotsAgree(c);
    hide *;
    ReservesUsable(c);
    IncludedReport(c, ValidReserves(c), c.d.primaries + 1);
    IncludedIs(c);
  }

  lemma ValidSlotsAgree(c: Collection)
    requires Acceptable(c)
    ensures forall slot | 1 <= slot <= Last(c.d) && ValidSlot(c, slot) :: Agrees(c, slot)
  {
    hide Sound, Agrees, ReserveOk, ValidSlot;
  }

  lemma IncludedIs(c: Collection)
    requires Acceptable(c)
    ensures Sound(c) && (forall s <- ValidReserves(c) :: 1 <= s <= Last(c.d) && ValidSlot(c, s))
    ensures OutcomeOf(c).included == Included(c, ValidReserves(c), c.d.primaries + 1)
  {
    hide Acceptable, Sound, Included, ValidReserves, ValidSlot;
    ReservesUsable(c);
  }

  function ConditionsOf(group: seq<Registered>): seq<string>
  {
    seq(|group|, i requires 0 <= i < |group| => group[i].condition)
  }

  lemma {:induction false} SizeOfDistinct(s: seq<string>)
    requires Distinct(s)
    ensures |set x | x in s| == |s|
  {
    if s != [] {
      var n := |s| - 1;
      SizeOfDistinct(s[..n]);
      assert s == s[..n] + [s[n]];
      assert (set x | x in s) == (set x | x in s[..n]) + {s[n]};
      assert s[n] !in s[..n];
    }
  }

  /** As many conditions as runs, and a run for each, leaves no run with another condition. */
  lemma NoOtherCondition(group: seq<Registered>, conditions: seq<string>, r: Registered)
    requires OneEach(group) && Distinct(conditions) && |group| == |conditions| && r in group
    requires forall k <- conditions :: Registers(group, k)
    ensures r.condition in conditions
  {
    var all := ConditionsOf(group);
    SizeOfDistinct(all);
    SizeOfDistinct(conditions);
    var a, b := (set x | x in conditions), (set x | x in all);
    forall x <- a
      ensures x in b
    {
      var q :| q in group && q.condition == x;
      var i :| 0 <= i < |group| && group[i] == q;
      assert all[i] == x;
    }
    SubsetOfSameSize(a, b);
    var i :| 0 <= i < |group| && group[i] == r;
    assert all[i] in b;
  }

  lemma SubsetOfSameSize(a: set<string>, b: set<string>)
    requires a <= b && |a| == |b|
    ensures a == b
  {
    assert b == a + (b - a);
  }

  /** The conditions of a pair are exactly those of the design. */
  lemma PairHasAllConditions(c: Collection, p: Pair)
    requires Sound(c) && Distinct(c.d.conditions) && Reports(c, p)
    ensures forall k :: k in p.runIds <==> k in c.d.conditions
  {
    GroupFacts(c, p.sourceSlot);
    GroupIs(c, p.sourceSlot);
    GroupSize(c, p.sourceSlot);
    hide Sound, Group, OneEach, Registers, CarriesRun;
    forall r <- c.runs | r.slot == p.sourceSlot
      ensures r.condition in c.d.conditions
    {
      NoOtherCondition(Group(c.runs, p.sourceSlot), c.d.conditions, r);
    }
  }

  lemma GroupSize(c: Collection, slot: int)
    requires Sound(c) && 1 <= slot <= Last(c.d)
    ensures |Group(c.runs, slot)| == |c.d.conditions|
  {
    assert GroupOk(c.d, Group(c.runs, slot));
    hide Group, AttemptedSlot;
  }

  // ---------------------------------------------------------------- lists

  predicate Ascending(s: seq<int>)
  {
    forall i, j :: 0 <= i < j < |s| ==> s[i] < s[j]
  }

  /** Every run of the slot was attempted, and at least one attempt is not valid. */
  predicate FailedSlot(c: Collection, slot: int)
  {
    && (forall r <- c.runs | r.slot == slot :: r.runId in c.observed)
    && (exists r <- c.runs :: r.slot == slot && r.runId in c.observed && !c.observed[r.runId].valid)
  }

  /** Every run of the slot was attempted validly. */
  predicate SuccessfulSlot(c: Collection, slot: int)
  {
    forall r <- c.runs | r.slot == slot :: r.runId in c.observed && c.observed[r.runId].valid
  }

  lemma SuccessfulIs(c: Collection, slot: int)
    ensures SuccessfulSlot(c, slot) <==> ValidSlot(c, slot)
  {
    GroupIs(c, slot);
    hide Group;
  }

  lemma {:induction false} ValidSlotsAscend(c: Collection, lo: int, hi: int)
    ensures Ascending(ValidSlots(c, lo, hi))
    decreases hi - lo
  {
    hide ValidSlot;
    if lo < hi {
      ValidSlotsAscend(c, lo, hi - 1);
      SlotsInRange(c, lo, hi - 1);
      AscendingAppend(ValidSlots(c, lo, hi - 1), hi - 1);
    }
  }

  lemma ValidSlotsAre(c: Collection, lo: int, hi: int)
    ensures Ascending(ValidSlots(c, lo, hi))
    ensures forall s :: s in ValidSlots(c, lo, hi) <==> lo <= s < hi && SuccessfulSlot(c, s)
  {
    hide *;
    ValidSlotsAscend(c, lo, hi);
    forall s
      ensures s in ValidSlots(c, lo, hi) <==> lo <= s < hi && SuccessfulSlot(c, s)
    {
      SlotsAreExact(c, lo, hi, s);
      SuccessfulIs(c, s);
    }
  }

  /** Only a successful slot is the source of a pair. */
  lemma SourceIsSuccessful(c: Collection, p: Pair)
    requires Acceptable(c) && p in OutcomeOf(c).included
    ensures SuccessfulSlot(c, p.sourceSlot)
  {
    hide *;
    EveryValidSlotIncluded(c, p.sourceSlot);
    SourceOccurs(OutcomeOf(c).included, p);
    SuccessfulIs(c, p.sourceSlot);
  }

  lemma SourceOccurs(pairs: seq<Pair>, p: Pair)
    requires p in pairs
    ensures multiset(Sources(pairs))[p.sourceSlot] > 0
  {
    var i :| 0 <= i < |pairs| && pairs[i] == p;
    assert Sources(pairs)[i] == p.sourceSlot;
  }

  lemma FailedIs(c: Collection, slot: int)
    ensures FailedSlot(c, slot) <==> AttemptedSlot(c, slot) && !ValidSlot(c, slot)
  {
    forall r: Registered
      ensures r in Group(c.runs, slot) <==> r in c.runs && r.slot == slot
    {
      GroupHas(c.runs, slot, r);
    }
    hide Group;
  }

  lemma {:induction false} InvalidSlotsAscend(c: Collection, lo: int, hi: int)
    ensures Ascending(InvalidSlots(c, lo, hi))
    decreases hi - lo
  {
    hide ValidSlot, AttemptedSlot;
    if lo < hi {
      InvalidSlotsAscend(c, lo, hi - 1);
      SlotsInRange(c, lo, hi - 1);
      AscendingAppend(InvalidSlots(c, lo, hi - 1), hi - 1);
    }
  }

  lemma AscendingAppend(s: seq<int>, x: int)
    requires Ascending(s) && forall y <- s :: y < x
    ensures Ascending(s + [x]) && Ascending(s + [])
  {
    assert s + [] == s;
    forall i, j | 0 <= i < j < |s + [x]|
      ensures (s + [x])[i] < (s + [x])[j]
    {
      assert s[i] in s;
    }
  }

  lemma InvalidSlotsAre(c: Collection, lo: int, hi: int)
    ensures Ascending(InvalidSlots(c, lo, hi))
    ensures forall s :: s in InvalidSlots(c, lo, hi) <==> lo <= s < hi && FailedSlot(c, s)
  {
    hide *;
    InvalidSlotsAscend(c, lo, hi);
    forall s
      ensures s in InvalidSlots(c, lo, hi) <==> lo <= s < hi && FailedSlot(c, s)
    {
      SlotsAreExact(c, lo, hi, s);
      FailedIs(c, s);
    }
  }

  lemma IdsForeign(group: seq<Registered>, id: RunId)
    requires forall r <- group :: r.runId != id
    ensures multiset(Ids(group))[id] == 0
  {
    forall x <- Ids(group)
      ensures x != id
    {
      var i :| 0 <= i < |group| && group[i].runId == x;
      assert group[i] in group;
    }
  }

  lemma IdsOnce(group: seq<Registered>, r: Registered)
    requires r in group && forall i, j :: 0 <= i < j < |group| ==> group[i].runId != group[j].runId
    ensures multiset(Ids(group))[r.runId] == 1
  {
    var i :| 0 <= i < |group| && group[i] == r;
    assert Ids(group) == Ids(group[..i]) + [r.runId] + Ids(group[i + 1..]);
    IdsForeign(group[..i], r.runId);
    IdsForeign(group[i + 1..], r.runId);
  }

  lemma SlotIds(c: Collection, slot: int, r: Registered)
    requires Sound(c) && r in c.runs
    ensures multiset(Ids(Group(c.runs, slot)))[r.runId] == if r.slot == slot then 1 else 0
  {
    GroupHas(c.runs, slot, r);
    RunsDiffer(c);
    hide Sound, Ids;
    if r.slot == slot {
      GroupIdsDistinct(c.runs, slot);
      IdsOnce(Group(c.runs, slot), r);
    } else {
      forall q <- Group(c.runs, slot)
        ensures q.runId != r.runId
      {
        GroupHas(c.runs, slot, q);
      }
      IdsForeign(Group(c.runs, slot), r.runId);
    }
  }

  lemma RunsDiffer(c: Collection)
    requires Sound(c)
    ensures forall i, j :: 0 <= i < j < |c.runs| ==> c.runs[i].runId != c.runs[j].runId
  {
    hide AttemptedSlot, GroupOk, Group;
  }

  lemma AddSeqs(a: seq<RunId>, b: seq<RunId>, id: RunId)
    ensures multiset(a + b)[id] == multiset(a)[id] + multiset(b)[id]
  {
  }

  lemma {:induction false} UnattemptedExact(c: Collection, lo: int, hi: int, r: Registered)
    requires Sound(c) && r in c.runs
    ensures multiset(UnattemptedIds(c, lo, hi))[r.runId]
         == if lo <= r.slot < hi && CountObserved(c, Group(c.runs, r.slot)) == 0 then 1 else 0
    decreases hi - lo
  {
    hide Sound, CountObserved, Group, Ids;
    if lo < hi {
      UnattemptedExact(c, lo, hi - 1, r);
      SlotIds(c, hi - 1, r);
      AddSeqs(UnattemptedIds(c, lo, hi - 1), Ids(Group(c.runs, hi - 1)), r.runId);
      AddSeqs(UnattemptedIds(c, lo, hi - 1), [], r.runId);
    }
  }

  /** A reserve run was not attempted exactly when nothing of its slot was. */
  lemma ReserveUntouched(c: Collection, r: Registered)
    requires Acceptable(c) && r in c.runs && c.d.primaries < r.slot
    ensures CountObserved(c, Group(c.runs, r.slot)) == 0 <==> r.runId !in c.observed
  {
    hide Acceptable, CountObserved, Group;
    SlotTouched(c, r);
    ReserveIsOk(c, r);
  }

  lemma OutcomeFields(c: Collection)
    requires Acceptable(c)
    ensures var o := OutcomeOf(c);
      && o.attemptedRuns == |c.observed|
      && o.reserveAttempts == |c.observed| - |c.d.conditions| * c.d.primaries
      && o.invalidPrimary == InvalidSlots(c, 1, c.d.primaries + 1)
      && o.invalidReserve == InvalidSlots(c, c.d.primaries + 1, Last(c.d) + 1)
      && o.unattempted == UnattemptedIds(c, c.d.primaries + 1, Last(c.d) + 1)
      && (o.complete <==> |o.included| == c.d.primaries)
  {
    hide Acceptable, InvalidSlots, UnattemptedIds, IncludedPairs, ValidSlots;
  }

  lemma ReplacementsOfOutcome(c: Collection)
    requires Acceptable(c)
    ensures var o, reserves := OutcomeOf(c), ValidSlots(c, c.d.primaries + 1, Last(c.d) + 1);
      && |o.replacements| == |reserves| <= |o.invalidPrimary|
      && forall k | 0 <= k < |reserves| :: o.replacements[k] == Replacement(o.invalidPrimary[k], reserves[k])
  {
    hide Acceptable, InvalidSlots, UnattemptedIds, IncludedPairs, ValidSlots, ValidSlot;
    ReservesUsable(c);
  }

  predicate PutIn(replacements: seq<Replacement>, reserve: int)
  {
    exists x <- replacements :: x.reserveSlot == reserve
  }

  /** The k-th replacement puts the k-th successful reserve in for the k-th failed primary, and every
      successful reserve is put in. */
  lemma ReplacementsAreExact(c: Collection)
    requires Acceptable(c)
    ensures var o := OutcomeOf(c);
      && |o.replacements| <= |o.invalidPrimary|
      && (forall k | 0 <= k < |o.replacements| :: o.replacements[k].primarySlot == o.invalidPrimary[k])
      && (forall i, j | 0 <= i < j < |o.replacements| :: o.replacements[i].reserveSlot < o.replacements[j].reserveSlot)
      && (forall s :: PutIn(o.replacements, s) <==> c.d.primaries < s <= Last(c.d) && SuccessfulSlot(c, s))
  {
    hide *;
    ReplacementsOfOutcome(c);
    ValidSlotsAre(c, c.d.primaries + 1, Last(c.d) + 1);
    var o := OutcomeOf(c);
    ReplacedInOrder(o.replacements, o.invalidPrimary, ValidSlots(c, c.d.primaries + 1, Last(c.d) + 1));
  }

  lemma ReplacedInOrder(replacements: seq<Replacement>, invalid: seq<int>, reserves: seq<int>)
    requires |replacements| == |reserves| <= |invalid| && Ascending(reserves)
    requires forall k | 0 <= k < |reserves| :: replacements[k] == Replacement(invalid[k], reserves[k])
    ensures forall k | 0 <= k < |replacements| :: replacements[k].primarySlot == invalid[k]
    ensures forall i, j | 0 <= i < j < |replacements| :: replacements[i].reserveSlot < replacements[j].reserveSlot
    ensures forall s :: PutIn(replacements, s) <==> s in reserves
  {
    forall s
      ensures PutIn(replacements, s) <==> s in reserves
    {
      if s in reserves {
        var k :| 0 <= k < |reserves| && reserves[k] == s;
        assert replacements[k].reserveSlot == s;
      }
    }
  }

  /** The invalid lists name, in ascending order, exactly the slots that were attempted in full and not
      validly, primaries and reserves apart. */
  lemma InvalidListsAreExact(c: Collection)
    requires Acceptable(c)
    ensures var o := OutcomeOf(c);
      && Ascending(o.invalidPrimary) && Ascending(o.invalidReserve)
      && (forall s :: s in o.invalidPrimary <==> 1 <= s <= c.d.primaries && FailedSlot(c, s))
      && (forall s :: s in o.invalidReserve <==> c.d.primaries < s <= Last(c.d) && FailedSlot(c, s))
  {
    hide *;
    OutcomeFields(c);
    InvalidSlotsAre(c, 1, c.d.primaries + 1);
    InvalidSlotsAre(c, c.d.primaries + 1, Last(c.d) + 1);
  }

  /** The unattempted list names every registered reserve run without an attempt once, and no other run. */
  lemma UnattemptedIsExact(c: Collection, r: Registered)
    requires Acceptable(c) && r in c.runs
    ensures multiset(OutcomeOf(c).unattempted)[r.runId]
         == if r.use == Reserve && r.runId !in c.observed then 1 else 0
  {
    UseBySlot(c, r);
    hide *;
    OutcomeFields(c);
    AcceptableIsSound(c);
    UnattemptedExact(c, c.d.primaries + 1, Last(c.d) + 1, r);
    if c.d.primaries < r.slot {
      ReserveUntouched(c, r);
    }
  }

  lemma UseBySlot(c: Collection, r: Registered)
    requires Acceptable(c) && r in c.runs
    ensures r.slot <= Last(c.d) && (r.use == Reserve <==> c.d.primaries < r.slot)
  {
    hide Acceptable;
    ReserveIsOk(c, r);
  }
}
