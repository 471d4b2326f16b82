/** What the bookkeeping of the rollup keeps although the rows that it speaks of are gone: a
    replay truncates six tables one after the other (orchestration/replay.py:38-45, 83-84),
    and may crash between two of them. */
module Books {
  import opened Rows
  import opened Orders
  import opened Lateness
  import opened Lake
  import opened Protocol
  import opened Rollup
  import opened Serving
  import opened Pipeline
  import opened Warehouse
  import opened Jobs

  // ---------- what a full load would aggregate ----------

  ghost predicate ReconLanded(i: Input, s: State) { forall x :: x in ReconRows(i) ==> x in s.lakeRows }

  /** What the rollup aggregates once every day is loaded again. */
  ghost function Target(i: Input, s: State): set<Item> { if ReconLanded(i, s) then BothItems(i) else HotItems(i) }

  lemma TargetIs(i: Input, s: State)
    ensures HotItems(i) <= Target(i, s) <= BothItems(i)
  {
    hide HotRows, ReconRows, Joined;
    forall x | x in HotItems(i) ensures x in BothItems(i) {
      JoinedIs(HotSet(i), AllExposures(i), x);
      JoinedIs(HotSet(i) + ReconSet(i), AllExposures(i), x);
    }
  }

  lemma ItemsWithin(i: Input, s: State)
    requires OfInput(i, s) && AllOrNone(i, s.lakeRows)
    ensures ItemsOf(s) <= Target(i, s)
  {
    hide HotRows, ReconRows, ItemsOf, HotItems, BothItems, UniqueExposures, Versioned;
    ItemsLieBetween(i, s);
    if !ReconLanded(i, s) {
      forall x | x in ItemsOf(s) ensures x in HotItems(i) {
        ItemOfState(s, x);
        HotItemIs(i, x);
      }
    }
  }

  /** With every day loaded it is what the rollup aggregates. */
  lemma AllItems(i: Input, s: State)
    requires OfInput(i, s) && Settled(i, s)
    ensures ItemsOf(s) == Target(i, s) && HoldsHot(i, s)
    ensures ReconLanded(i, s) ==> HoldsRecon(i, s)
  {
    hide HotRows, ReconRows, ItemsOf, HotItems, BothItems, CurrentOf, UniqueExposures, Versioned;
    SettledHolds(i, s);
    if ReconLanded(i, s) {
      forall x | x in ReconRows(i) ensures x in s.rows {
        var h := Corrects(i, x);
        CreditIsFinal(i, s.lakeRows, x);
      }
    } else {
      assert forall x :: x in ReconRows(i) ==> x !in s.rows;
    }
    ItemsLieBetween(i, s);
  }

  // ---------- the books ----------

  /** Recorded versions are backed by what a full load would aggregate, whether the rows are
      loaded now or not. */
  ghost predicate Ledger(i: Input, s: State, open: Open) {
    && OfInput(i, s) && AllOrNone(i, s.lakeRows) && Covered(s, open)
    && forall d :: d in s.dirty ==> HasRow(Target(i, s), d)
  }

  /** A rollup row is the rebuilt row of the hot pass, or of both if both have landed. */
  ghost predicate Sound(i: Input, s: State, h: Hourly) {
    h in Rebuild(HotItems(i)) || (ReconLanded(i, s) && h in Rebuild(BothItems(i)))
  }

  ghost predicate Book(i: Input, s: State, open: Open) {
    Ledger(i, s, open) && Stamped(s) && forall h :: h in s.hourly ==> Sound(i, s, h)
  }

  /** Books over a fully loaded warehouse are consistent with its rows. */
  lemma LoadedLedger(i: Input, s: State)
    requires Ledger(i, s, Open({}, {})) && Settled(i, s)
    ensures Recording(s, Open({}, {})) && ItemsOf(s) == Target(i, s)
  {
    hide HotRows, ReconRows, ItemsOf, HotItems, BothItems, CurrentOf, UniqueExposures, Versioned, Covered;
    AllItems(i, s);
  }

  lemma LoadedBook(i: Input, s: State)
    requires Book(i, s, Open({}, {})) && Settled(i, s)
    ensures AllLoaded(i, s)
  {
    hide HotRows, ReconRows, ItemsOf, HotItems, BothItems, Rebuild, RowOf, MaxStamp, Covered, Stamped, OfInput, Fresh,
         LakeHoldsHot;
    LoadedLedger(i, s);
    AllItems(i, s);
    TargetIs(i, s);
    forall h | h in s.hourly ensures HonestRow(s, h) && PublishedRow(i, s, h) {
      RebuildIs(HotItems(i), h);
      RebuildIs(BothItems(i), h);
      assert Sound(i, s, h);
      if h in Rebuild(HotItems(i)) {
        AsNewIsAll(i, ItemsOf(s), h.key);
        RowKey(h.key, ItemsAt(HotItems(i), h.key));
      } else {
        RowKey(h.key, ItemsAt(BothItems(i), h.key));
      }
    }
  }

  /** A consistent warehouse keeps its books. */
  lemma InvIsBook(i: Input, s: State, open: Open)
    requires PipelineInv(i, s) && Inv(s, open) && AllOrNone(i, s.lakeRows)
    ensures Book(i, s, open)
  {
    hide HotRows, ReconRows, ItemsOf, HotItems, BothItems, Rebuild, Covered, Stamped, Honest, UniqueExposures,
         Versioned;
    ItemsWithin(i, s);
    forall d | d in s.dirty ensures HasRow(Target(i, s), d) {
      assert HasRow(ItemsOf(s), d);
      var x :| x in ItemsOf(s) && x.Key() == d.key && d.version <= x.Stamp();
      assert x in Target(i, s);
    }
    forall h | h in s.hourly ensures Sound(i, s, h) { assert PublishedRow(i, s, h); }
  }

  // ---------- every step of a job keeps them ----------

  lemma TargetGrows(i: Input, s: State, t: State)
    requires ReconLanded(i, s) ==> ReconLanded(i, t)
    ensures Target(i, s) <= Target(i, t)
    ensures forall d :: HasRow(Target(i, s), d) ==> HasRow(Target(i, t), d)
    ensures forall h :: Sound(i, s, h) ==> Sound(i, t, h)
  {
    hide ReconRows, HotItems, BothItems, Rebuild;
    TargetIs(i, s);
    TargetIs(i, t);
    forall d | HasRow(Target(i, s), d) ensures HasRow(Target(i, t), d) {
      var x :| x in Target(i, s) && x.Key() == d.key && d.version <= x.Stamp();
      assert x in Target(i, t);
    }
  }

  lemma LandedStays(i: Input, s: State, step: Step)
    requires Possible(s, step) && ReconLanded(i, s)
    ensures ReconLanded(i, Next(s, step))
  {
    hide ReconRows, Recomputed, ExposureStamps, RowStamps, DayRows;
  }

  lemma AllowedKeepsLedger(i: Input, s: State, step: Step, open: Open)
    requires Ledger(i, s, open) && Allowed(i, s, step) && AllOrNone(i, Next(s, step).lakeRows)
    ensures Ledger(i, Next(s, step), OpenAfter(open, step))
  {
    hide HotRows, ReconRows, ItemsOf, HotItems, BothItems, Recomputed, Recorded, DayRows, OfInput, Target, HasRow,
         AllOrNone, Next, Possible, Allowed, Covered, OpenAfter, ReconLanded;
    var t := Next(s, step);
    AllowedKeepsLake(i, s, step);
    FromInput(i, s);
    if ReconLanded(i, s) { LandedStays(i, s, step); }
    TargetGrows(i, s, t);
    if IsLoad(step) {
      LoadKeepsCovered(s, step, open);
      LoadRecordsItems(s, step);
      ItemsWithin(i, t);
      forall d | d in t.dirty ensures HasRow(Target(i, t), d) {
        if d !in s.dirty { MoreItems(ItemsOf(t), Target(i, t), d); }
      }
    } else {
      OtherStepKeepsCovered(s, step, open);
    }
  }

  lemma MoreItems(a: set<Item>, b: set<Item>, d: Stamp)
    requires HasRow(a, d) && a <= b
    ensures HasRow(b, d)
  {
    var x :| x in a && x.Key() == d.key && d.version <= x.Stamp();
    assert x in b;
  }

  lemma OtherStepKeepsCovered(s: State, step: Step, open: Open)
    requires Covered(s, open) && Possible(s, step) && !IsLoad(step)
    ensures Covered(Next(s, step), OpenAfter(open, step))
    ensures Next(s, step).dirty <= s.dirty
  {
    hide ItemsOf, Recomputed, HasStamp;
    if step.Truncate? { NothingToAggregate(Next(s, step)); } else { SameItems(s, Next(s, step)); }
  }

  lemma AllowedKeepsBook(i: Input, s: State, step: Step, open: Open)
    requires Book(i, s, open) && Allowed(i, s, step) && AllOrNone(i, Next(s, step).lakeRows)
    ensures Book(i, Next(s, step), OpenAfter(open, step))
  {
    hide HotRows, ReconRows, ItemsOf, HotItems, BothItems, Recomputed, Recorded, DayRows, Target, AllOrNone,
         Covered, OpenAfter, ReconLanded, Settled, Ledger, Sound, ExposureStamps, RowStamps, DirtyKeys;
    var t := Next(s, step);
    AllowedKeepsLedger(i, s, step, open);
    LedgerParts(i, s, open);
    AllowedKeepsLake(i, s, step);
    if ReconLanded(i, s) { LandedStays(i, s, step); }
    TargetGrows(i, s, t);
    if step.Refresh? || step.CrashInRefresh? {
      forall h | h in Recomputed(s) ensures Sound(i, t, h) { RecomputedIsSound(i, s, h); SameSound(i, s, t, h); }
      BackedBy(i, s, open);
      if step.Refresh? { RefreshKeepsStamped(s); }
    }
  }

  lemma LedgerParts(i: Input, s: State, open: Open)
    requires Ledger(i, s, open)
    ensures OfInput(i, s) && AllOrNone(i, s.lakeRows) && Covered(s, open)
  {
  }

  lemma SameSound(i: Input, s: State, t: State, h: Hourly)
    requires Sound(i, s, h) && s.lakeRows == t.lakeRows
    ensures Sound(i, t, h)
  {
    hide ReconRows, Rebuild;
  }

  lemma RecomputedIsSound(i: Input, s: State, h: Hourly)
    requires OfInput(i, s) && Settled(i, s) && h in Recomputed(s)
    ensures Sound(i, s, h)
  {
    hide HotRows, ReconRows, ItemsOf, HotItems, BothItems, Recomputed, RowAt, OfInput, Settled;
    AllItems(i, s);
    RecomputedIs(s, h);
    RowAtIs(s, h.key);
    RebuildIs(ItemsOf(s), h);
  }

  lemma BackedBy(i: Input, s: State, open: Open)
    requires Ledger(i, s, open) && Settled(i, s)
    ensures Backed(s)
  {
    hide HotRows, ReconRows, ItemsOf, Target, OfInput, Settled, Covered, HasRow;
    AllItems(i, s);
  }

  /** A landing among these steps lands rows of the hot pass. */
  ghost predicate LandsHot(i: Input, steps: seq<Step>) {
    forall x :: x in steps && x.LandRows? ==> forall a :: a in x.newRows ==> a in HotRows(i)
  }

  lemma HotStepKeepsPasses(i: Input, s: State, step: Step)
    requires AllOrNone(i, s.lakeRows) && Possible(s, step)
    requires step.LandRows? ==> forall a :: a in step.newRows ==> a in HotRows(i)
    ensures AllOrNone(i, Next(s, step).lakeRows)
  {
    hide HotRows, ReconRows, Recomputed, ExposureStamps, RowStamps, DayRows;
    forall x | x in ReconRows(i) ensures x !in HotRows(i) { RecoveredIsNotHot(i, x); }
  }

  lemma {:induction false} RunKeepsLedger(i: Input, s: State, steps: seq<Step>, open: Open)
    requires Ledger(i, s, open) && AllowedRun(i, s, steps) && LandsHot(i, steps)
    ensures Ledger(i, RunOf(s, steps), OpenOf(open, steps))
    decreases |steps|
  {
    hide Ledger, Allowed, Next, OpenAfter, Possible, AllOrNone, HotRows;
    if steps != [] {
      assert steps[0] in steps && forall x :: x in steps[1..] ==> x in steps;
      LedgerParts(i, s, open);
      AllowedKeepsLake(i, s, steps[0]);
      HotStepKeepsPasses(i, s, steps[0]);
      AllowedKeepsLedger(i, s, steps[0], open);
      RunKeepsLedger(i, Next(s, steps[0]), steps[1..], OpenAfter(open, steps[0]));
    }
  }

  lemma {:induction false} RunKeepsBook(i: Input, s: State, steps: seq<Step>, open: Open)
    requires Book(i, s, open) && AllowedRun(i, s, steps) && LandsHot(i, steps)
    ensures Book(i, RunOf(s, steps), OpenOf(open, steps))
    decreases |steps|
  {
    hide Ledger, Sound, Stamped, Allowed, Next, OpenAfter, Possible, AllOrNone, HotRows;
    if steps != [] {
      assert steps[0] in steps && forall x :: x in steps[1..] ==> x in steps;
      LedgerParts(i, s, open);
      AllowedKeepsLake(i, s, steps[0]);
      HotStepKeepsPasses(i, s, steps[0]);
      AllowedKeepsBook(i, s, steps[0], open);
      RunKeepsBook(i, Next(s, steps[0]), steps[1..], OpenAfter(open, steps[0]));
    }
  }

  // ---------- the hot job over books ----------

  function AllDays(i: Input): set<int> { DaysAired(i.exposures) + DaysOf(HotRows(i)) }

  /** The warehouse that the loads of a hot job find. */
  ghost function HotLanded(i: Input, s: State): State {
    Next(Next(s, LandExposures(i.exposures)), LandRows(HotRows(i)))
  }

  ghost function HotReloaded(i: Input, s: State): State { RunOf(HotLanded(i, s), LoadSteps(SortedIds(AllDays(i)))) }

  lemma HotLandingsFit(i: Input, s: State)
    requires OfInput(i, s)
    ensures Allowed(i, s, LandExposures(i.exposures))
    ensures Allowed(i, Next(s, LandExposures(i.exposures)), LandRows(HotRows(i)))
    ensures OfInput(i, HotLanded(i, s)) && LakeHoldsHot(i, HotLanded(i, s))
    ensures AllOrNone(i, s.lakeRows) ==> AllOrNone(i, HotLanded(i, s).lakeRows)
  {
    hide HotRows, ReconRows, OfInput, AllOrNone;
    var s1 := Next(s, LandExposures(i.exposures));
    assert forall a :: a in HotRows(i) ==> a in HotRows(i);
    AllowedKeepsLake(i, s, LandExposures(i.exposures));
    AllowedKeepsLake(i, s1, LandRows(HotRows(i)));
    if AllOrNone(i, s.lakeRows) { HotIsNotRecon(i, s); }
  }

  /** Whatever was in the tables, once its loads are through every day is loaded. */
  lemma HotLoadsSettle(i: Input, s: State)
    requires OfInput(i, s) && AllOrNone(i, s.lakeRows)
    ensures var u := HotReloaded(i, s);
      OfInput(i, u) && Settled(i, u) && u.hourly == s.hourly && u.refreshed == s.refreshed
  {
    hide RunOf, LoadSteps, HotRows, ReconRows, CurrentOf, OnlyLoads, Fresh, FromTheTwoPasses, UniqueExposures,
         AllOrNone, Versioned, DaysAired, DaysOf, AllDays;
    var t := HotLanded(i, s);
    var steps, all := LoadSteps(SortedIds(AllDays(i))), Stale(DaysAired(t.lakeExposures), DaysOf(t.lakeRows));
    HotLandingsFit(i, s);
    FromInput(i, t);
    LoadStepsAre(SortedIds(AllDays(i)));
    LoadedBy(t, steps);
    DaysWithin(i, t);
    AllStale(t, all);
    LoadingFreshens(t, AllDays(i), all);
  }

  lemma DaysWithin(i: Input, s: State)
    requires OfInput(i, s)
    ensures DaysAired(s.lakeExposures) <= AllDays(i) && DaysOf(s.lakeRows) <= AllDays(i)
  {
    hide HotRows, ReconRows, FromLake;
    DaysOfTheHotPass(i, s);
  }

  lemma HotLoadsKeepLedger(i: Input, s: State, open: Open)
    requires Ledger(i, s, open)
    ensures Ledger(i, HotReloaded(i, s), Open({}, {})) && Settled(i, HotReloaded(i, s))
  {
    hide RunOf, LoadSteps, HotRows, Ledger, OnlyLoads, OpenOf, AllOrNone, OfInput, Allowed, AllowedRun, Settled,
         AllDays, Next;
    var s1, t := Next(s, LandExposures(i.exposures)), HotLanded(i, s);
    var steps := LoadSteps(SortedIds(AllDays(i)));
    LedgerParts(i, s, open);
    HotLandingsFit(i, s);
    LakeAfterLandings(i, s);
    AllowedKeepsLedger(i, s, LandExposures(i.exposures), open);
    AllowedKeepsLedger(i, s1, LandRows(HotRows(i)), open);
    LoadStepsAre(SortedIds(AllDays(i)));
    LoadsAllowed(i, t, steps);
    LoadsLandHot(i, steps);
    RunKeepsLedger(i, t, steps, open);
    HotLoadsSettle(i, s);
    LoadsClose(open, SortedIds(AllDays(i)));
    LedgerCloses(i, RunOf(t, steps), OpenOf(open, steps));
  }

  lemma LakeAfterLandings(i: Input, s: State)
    ensures Next(s, LandExposures(i.exposures)).lakeRows == s.lakeRows
    ensures HotLanded(i, s) == Next(Next(s, LandExposures(i.exposures)), LandRows(HotRows(i)))
  {
    hide HotRows;
  }

  lemma LoadsLandHot(i: Input, steps: seq<Step>)
    requires OnlyLoads(steps)
    ensures LandsHot(i, steps)
  {
    hide HotRows;
  }

  /** Days that nothing falls on need not be closed. */
  lemma LedgerCloses(i: Input, s: State, open: Open)
    requires Ledger(i, s, open) && open.exposureDays !! AllDays(i) && open.rowDays !! AllDays(i)
    ensures Ledger(i, s, Open({}, {}))
  {
    hide HotRows, ReconRows, ItemsOf, HasStamp, UniqueExposures, Versioned, AllOrNone, FromTheTwoPasses, Target,
         AllDays;
    DaysWithin(i, s);
    forall x | x in ItemsOf(s) ensures !open.Exempts(x) {
      ItemOfState(s, x);
      assert EventDay(x.e) in DaysAired(s.lakeExposures);
      if x.Credited? { assert x.a.Day() in DaysOf(s.lakeRows); }
    }
  }

  lemma HotLoadsKeepBook(i: Input, s: State, open: Open)
    requires Book(i, s, open)
    ensures AllLoaded(i, HotReloaded(i, s)) && Settled(i, HotReloaded(i, s))
  {
    hide RunOf, LoadSteps, HotRows, Ledger, Stamped, Sound, OnlyLoads, OpenOf, AllOrNone, OfInput, Allowed,
         AllowedRun, Settled, AllDays, Next;
    var s1, t, u := Next(s, LandExposures(i.exposures)), HotLanded(i, s), HotReloaded(i, s);
    var steps := LoadSteps(SortedIds(AllDays(i)));
    LedgerParts(i, s, open);
    HotLandingsFit(i, s);
    LakeAfterLandings(i, s);
    AllowedKeepsBook(i, s, LandExposures(i.exposures), open);
    AllowedKeepsBook(i, s1, LandRows(HotRows(i)), open);
    LoadStepsAre(SortedIds(AllDays(i)));
    LoadsAllowed(i, t, steps);
    LoadsLandHot(i, steps);
    RunKeepsBook(i, t, steps, open);
    HotLoadsKeepLedger(i, s, open);
    LoadedBook(i, u);
  }

  lemma HotJobIs(i: Input, s: State)
    ensures AllDays(i) != {} ==> EngineJob(s, i) == Next(HotReloaded(i, s), Refresh)
    ensures AllDays(i) == {} ==> EngineJob(s, i) == s == HotReloaded(i, s)
  {
    hide HotRows, RunOf, Next, DaysAired, DaysOf;
    if AllDays(i) == {} {
      NoDaysNothingLanded(i, s);
      EmptyLandings(i, s);
    }
  }

  lemma EmptyLandings(i: Input, s: State)
    requires AllDays(i) == {}
    ensures HotReloaded(i, s) == s && i.exposures == [] && HotRows(i) == []
  {
    hide HotRows;
    NoDaysNothingLanded(i, s);
    forall e ensures e !in i.exposures { assert e in i.exposures ==> EventDay(e) in DaysAired(i.exposures); }
    forall a ensures a !in HotRows(i) { assert a in HotRows(i) ==> a.Day() in DaysOf(HotRows(i)); }
    FirstIn(i.exposures);
    FirstIn(HotRows(i));
    NoDays(s);
  }

  /** The hot job repairs whatever left the books in order: crashed loads and refreshes, a
      reconciliation that landed and was never loaded, truncated rows. */
  lemma HotJobRepairs(i: Input, s: State, open: Open)
    requires Book(i, s, open)
    ensures Good(i, EngineJob(s, i))
  {
    hide HotRows, Book, AllLoaded, Settled, Next, HotReloaded, AllDays;
    var u := HotReloaded(i, s);
    HotJobIs(i, s);
    HotLoadsKeepBook(i, s, open);
    LoadedIsConsistent(i, u);
    if AllDays(i) == {} {
      NothingIsGood(i, u, Open({}, {})) by { NoDaysAtAll(i); }
    } else {
      RefreshFinishes(i, u);
    }
  }

  lemma NoDaysAtAll(i: Input)
    requires AllDays(i) == {}
    ensures DaysAired(i.exposures) + DaysOf(HotRows(i)) == {}
  {
    hide HotRows;
  }

  lemma LoadedIsConsistent(i: Input, s: State)
    requires AllLoaded(i, s)
    ensures PipelineInv(i, s) && Inv(s, Open({}, {}))
  {
  }

  // ---------- a truncation that crashes ----------

  lemma TruncationKeepsLedger(i: Input, s: State, n: nat, open: Open)
    requires Ledger(i, s, open) && n <= 6
    ensures Ledger(i, Truncated(s, n), open)
  {
    hide HotRows, ReconRows, Items, HotItems, BothItems, UniqueExposures, Versioned;
    TruncatedIs(s, n);
    if n > 0 { NothingAired(Truncated(s, n)); }
  }

  lemma NothingAired(s: State)
    requires s.exposures == {}
    ensures ItemsOf(s) == {}
  {
    hide Final;
    forall x ensures x !in ItemsOf(s) { ItemIs(s.rows, s.exposures, x); }
  }

  /** Until the rollup itself is emptied the books stay in order, and they are again when
      everything is. */
  lemma TruncationKeepsBook(i: Input, s: State, n: nat, open: Open)
    requires Book(i, s, open) && (n <= 3 || n == 6)
    ensures Book(i, Truncated(s, n), open)
  {
    hide Ledger, HotItems, BothItems, ReconRows;
    TruncationKeepsLedger(i, s, n, open);
    TruncatedIs(s, n);
  }

  /** The rollup is empty, and its bookkeeping still says which versions it was computed
      against: the next hot job computes exactly the keys that it does not say so of. */
  lemma CutTruncationIff(i: Input, s: State, n: nat, open: Open)
    requires Ledger(i, s, open) && n in {4, 5}
    ensures Exact(EngineJob(Truncated(s, n), i)) <==> Recorded(Target(i, s)) !! FinalStamps(s.refreshed)
    ensures Recorded(Target(i, s)) <= FinalStamps(s.refreshed) ==> EngineJob(Truncated(s, n), i).hourly == {}
  {
    hide HotRows, Ledger, Settled, Next, HotReloaded, AllDays, OfInput, AllOrNone, Recorded, Target, HotLanded;
    var t := Truncated(s, n);
    var u := HotReloaded(i, t);
    TruncatedIs(s, n);
    TruncationKeepsLedger(i, s, n, open);
    HotLoadsKeepLedger(i, t, open);
    LedgerParts(i, t, open);
    HotLoadsSettle(i, t);
    LoadedLedger(i, u);
    SameTarget(i, s, u, open);
    HotJobIs(i, t);
    EmptyRollupIff(u);
    if AllDays(i) == {} {
      NothingToRecord(i, u);
      assert Exact(u) by { NothingPublishedAtAll(u); }
    }
  }

  /** Landing the hot pass again does not change what a full load aggregates. */
  lemma SameTarget(i: Input, s: State, u: State, open: Open)
    requires Ledger(i, s, open) && (exists n :: n in {4, 5} && u == HotReloaded(i, Truncated(s, n)))
    ensures Target(i, u) == Target(i, s)
  {
    hide HotRows, ReconRows, RunOf, LoadSteps, OnlyLoads, HotItems, BothItems, AllDays, CurrentOf;
    var n :| n in {4, 5} && u == HotReloaded(i, Truncated(s, n));
    var t := Truncated(s, n);
    TruncatedIs(s, n);
    TruncationKeepsLedger(i, s, n, open);
    HotLandingsFit(i, t);
    LoadStepsAre(SortedIds(AllDays(i)));
    FromInput(i, HotLanded(i, t));
    LoadedBy(HotLanded(i, t), LoadSteps(SortedIds(AllDays(i))));
    forall x | x in ReconRows(i) ensures x !in HotRows(i) { RecoveredIsNotHot(i, x); }
    assert u.lakeRows == s.lakeRows + HotRows(i);
  }

  lemma NothingToRecord(i: Input, u: State)
    requires AllDays(i) == {} && OfInput(i, u)
    ensures ItemsOf(u) == {} && Recorded(ItemsOf(u)) == {}
  {
    hide HotRows, ReconRows, Items;
    EmptyLandings(i, u);
    assert u.exposures == {};
    NothingAired(u);
  }

  lemma NothingPublishedAtAll(u: State)
    requires u.hourly == {} && ItemsOf(u) == {}
    ensures Exact(u)
  {
    hide Items, ItemsOf;
    assert Rebuild({}) == {};
    assert FinalHourly({}) == {};
  }

  /** A refresh of an empty rollup. */
  lemma EmptyRollupIff(u: State)
    requires Recording(u, Open({}, {})) && u.hourly == {}
    ensures Exact(Next(u, Refresh)) <==> Recorded(ItemsOf(u)) !! FinalStamps(u.refreshed)
    ensures Recorded(ItemsOf(u)) <= FinalStamps(u.refreshed) ==> Next(u, Refresh).hourly == {}
  {
    hide ItemsOf, RowAt, RowOf, Recomputed, DirtyKeys, Recorded, Backed, Covered, FromLake, Rebuild;
    var v := Next(u, Refresh);
    SameItems(u, v);
    DirtySetIsExact(u);
    DirtyKeysAre(u.dirty, u.refreshed);
    forall h ensures h in v.hourly <==> (exists d :: d in DirtyNow(u) && d.key == h.key) && RowAt(u, h.key) == Some(h) {
      RecomputedIs(u, h);
    }
    forall h ensures h in FinalHourly(v.hourly) <==> h in v.hourly {}
    if Exact(v) {
      forall d | d in Recorded(ItemsOf(u)) ensures d in DirtyNow(u) { RecordedIsRebuilt(u, d); }
      Disjoint(Recorded(ItemsOf(u)), FinalStamps(u.refreshed));
    }
    if Recorded(ItemsOf(u)) !! FinalStamps(u.refreshed) {
      assert DirtyNow(u) == Recorded(ItemsOf(u));
      forall h ensures h in v.hourly <==> h in Rebuild(ItemsOf(v)) {
        RebuildIs(ItemsOf(u), h);
        RowAtIs(u, h.key);
        if RowAt(u, h.key).Some? { StampIsRecorded(u, h.key); }
      }
    }
  }

  lemma StampIsRecorded(u: State, k: Key)
    requires RowAt(u, k).Some?
    ensures Stamp(k, RowAt(u, k).value.reportedAt) in Recorded(ItemsOf(u))
  {
    hide ItemsOf, RowAt, RowOf, MaxStamp;
    RowAtIs(u, k);
    var x := Member(ItemsAt(ItemsOf(u), k));
    assert x in ItemsOf(u) && Stamp(x.Key(), LatestAt(ItemsOf(u), x)) in Recorded(ItemsOf(u));
  }

  lemma RecordedIsRebuilt(u: State, d: Stamp)
    requires d in Recorded(ItemsOf(u)) && Exact(Next(u, Refresh)) && u.hourly == {}
    requires Recording(u, Open({}, {}))
    ensures d in DirtyNow(u)
  {
    hide ItemsOf, RowOf, Recomputed, DirtyKeys, MaxStamp, Rebuild, Backed, Covered, FromLake;
    var x :| x in ItemsOf(u) && d == Stamp(x.Key(), LatestAt(ItemsOf(u), x));
    var row := RowOf(d.key, ItemsAt(ItemsOf(u), d.key));
    SameItems(u, Next(u, Refresh));
    assert x in ItemsAt(ItemsOf(u), d.key);
    RowAtIs(u, d.key);
    RebuildIs(ItemsOf(u), row);
    assert row in FinalHourly(Next(u, Refresh).hourly);
    RecomputedIs(u, row);
    var c :| c in DirtyNow(u) && c.key == d.key;
    DirtyKeysAre(u.dirty, u.refreshed);
    DirtyIsLatest(u, d.key);
  }

  /** Exactly when the hot job repairs a replay that crashed among its truncations: the rollup
      was not emptied yet, or its bookkeeping was emptied with it, or no key of the rebuild is
      marked as computed at its latest version. */
  lemma CrashedTruncationIff(i: Input, s: State, n: nat, open: Open)
    requires Book(i, s, open) && n <= 6
    ensures Exact(EngineJob(RunOf(s, Truncations()[..n]), i)) <==>
            n <= 3 || n == 6 || Recorded(Target(i, s)) !! FinalStamps(s.refreshed)
  {
    hide Book, Ledger, EngineJob, Good, RunOf, Target, Recorded;
    TruncationsAre(s, n);
    BookParts(i, s, open);
    if n <= 3 || n == 6 {
      TruncationKeepsBook(i, s, n, open);
      HotJobRepairs(i, Truncated(s, n), open);
      GoodIsExact(i, EngineJob(Truncated(s, n), i));
    } else {
      CutTruncationIff(i, s, n, open);
    }
  }

  lemma BookParts(i: Input, s: State, open: Open)
    requires Book(i, s, open)
    ensures Ledger(i, s, open)
  {
  }

  lemma GoodIsExact(i: Input, s: State)
    requires Good(i, s)
    ensures Exact(s)
  {
  }

  /** Once a refresh has completed every key is so marked, and the condition says that there
      is nothing to aggregate. */
  lemma RefreshedMarksAll(i: Input, s: State)
    requires AllLoaded(i, s) && Settled(i, s) && DirtyNow(s) == {}
    ensures Recorded(Target(i, s)) <= FinalStamps(s.refreshed)
    ensures Recorded(Target(i, s)) !! FinalStamps(s.refreshed) <==> i.exposures == []
  {
    hide HotRows, ReconRows, ItemsOf, Settled, Target, Recorded, DirtyKeys, PipelineInv, Backed, Covered, Stamped,
         Honest;
    LoadedParts(i, s);
    AllItems(i, s);
    DirtySetIsExact(s);
    DirtyKeysAre(s.dirty, s.refreshed);
    NothingLeft(FinalStamps(s.dirty), FinalStamps(s.refreshed));
    SomethingRecorded(i, s);
  }

  lemma SomethingRecorded(i: Input, s: State)
    requires HoldsHot(i, s) && OfInput(i, s)
    ensures Recorded(ItemsOf(s)) == {} <==> i.exposures == []
  {
    hide HotRows, ReconRows, ItemsOf;
    if i.exposures == [] {
      assert s.exposures == {};
      NothingAired(s);
    } else {
      var e := i.exposures[0];
      assert e in s.exposures;
      ItemOfState(s, Aired(e)) by { FromInput(i, s); }
      assert Aired(e) in ItemsOf(s) && Stamp(KeyOf(e), LatestAt(ItemsOf(s), Aired(e))) in Recorded(ItemsOf(s));
    }
  }

  /** So, after a refresh that completed, the hot job that follows the crashed truncation ends
      exact if and only if the crash fell before the rollup was emptied or behind its
      bookkeeping, or there is nothing to aggregate. */
  lemma RefreshedTruncationIff(i: Input, s: State, n: nat)
    requires AllLoaded(i, s) && Settled(i, s) && DirtyNow(s) == {} && n <= 6
    ensures Exact(EngineJob(RunOf(s, Truncations()[..n]), i)) <==> n <= 3 || n == 6 || i.exposures == []
  {
    hide AllLoaded, Settled, DirtyNow, EngineJob, RunOf, Target, Recorded, Book, AllOrNone;
    LoadedIsConsistent(i, s);
    SettledIsWhole(i, s);
    InvIsBook(i, s, Open({}, {}));
    CrashedTruncationIff(i, s, n, Open({}, {}));
    RefreshedMarksAll(i, s);
  }

  /** So on every input with an exposure: the hot job completes, a replay crashes between the
      rollup and its bookkeeping, the hot job completes again, and serves an empty rollup. */
  lemma CutTruncationIsLost(i: Input, n: nat)
    requires UniqueExposures(i.exposures) && i.exposures != [] && n in {4, 5}
    ensures var t := EngineJob(EmptyWarehouse(), i);
      var v := EngineJob(RunOf(t, Truncations()[..n]), i);
      v.hourly == {} && !Exact(v)
  {
    hide HotRows, EngineJob, AllLoaded, Good, Book, Ledger, RunOf, Target, Recorded, DirtyNow, Settled, AllOrNone,
         EmptyWarehouse, AllDays, HotReloaded, Next;
    var e := EmptyWarehouse();
    var t := EngineJob(e, i);
    EmptyIsGood(i);
    GoodIsConsistent(i, e);
    InvIsBook(i, e, Open({}, {}));
    HotLoadsKeepBook(i, e, Open({}, {}));
    HotJobRepairs(i, e, Open({}, {}));
    SomeDay(i);
    HotJobIs(i, e);
    var u := HotReloaded(i, e);
    LoadedIsConsistent(i, u);
    JobCleans(u);
    RefreshSettled(i, u);
    GoodIsLoaded(i, t);
    RefreshedMarksAll(i, t);
    LoadedIsConsistent(i, t);
    InvIsBook(i, t, Open({}, {})) by { SettledIsWhole(i, t); }
    BookParts(i, t, Open({}, {}));
    TruncationsAre(t, n);
    CutTruncationIff(i, t, n, Open({}, {}));
  }

  lemma SettledIsWhole(i: Input, s: State)
    requires Settled(i, s)
    ensures AllOrNone(i, s.lakeRows)
  {
    hide AllOrNone;
  }

  lemma GoodIsLoaded(i: Input, s: State)
    requires Good(i, s)
    ensures AllLoaded(i, s)
  {
  }

  lemma SomeDay(i: Input)
    requires i.exposures != []
    ensures AllDays(i) != {}
  {
    hide HotRows;
    assert i.exposures[0] in i.exposures && EventDay(i.exposures[0]) in DaysAired(i.exposures);
  }

  lemma RefreshSettled(i: Input, s: State)
    requires Settled(i, s)
    ensures Settled(i, Next(s, Refresh))
  {
    hide HotRows, ReconRows, CurrentOf;
    RefreshFrame(s);
  }
}
