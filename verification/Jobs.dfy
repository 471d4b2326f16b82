/** Whole jobs, end to end: the hot pass, the reconciliation and the replay, composed from
    what the methods of the warehouse are proved to do. */
module Jobs {
  import opened Rows
  import opened Orders
  import opened Leaf
  import opened Dataflow
  import opened Parity
  import opened Collapse
  import opened Lateness
  import opened Lake
  import opened Recover
  import opened Protocol
  import opened Rollup
  import opened Serving
  import opened Pipeline
  import opened Restatement
  import opened Warehouse

  // ---------- one load job ----------

  lemma {:induction false} LoadStepsAre(days: seq<int>)
    ensures OnlyLoads(LoadSteps(days))
    ensures forall d :: LoadExposures(d) in LoadSteps(days) <==> d in days
    ensures forall d :: LoadRows(d) in LoadSteps(days) <==> d in days
  {
    if days != [] {
      LoadStepsAre(Init(days));
      assert days == Init(days) + [Last(days)];
    }
  }

  lemma {:induction false} LoadsAllowed(i: Input, s: State, steps: seq<Step>)
    requires OnlyLoads(steps)
    ensures AllowedRun(i, s, steps)
    decreases |steps|
  {
    hide Next, Settled, Recomputed;
    if steps != [] {
      assert steps[0] in steps && forall x :: x in steps[1..] ==> x in steps;
      LoadsAllowed(i, Next(s, steps[0]), steps[1..]);
    }
  }

  /** Loading every stale day leaves nothing stale. */
  lemma LoadingFreshens(s: State, days: set<int>, stale: Stale)
    requires FromLake(s) && Fresh(s, stale) && stale.exposureDays <= days && stale.rowDays <= days
    ensures Fresh(RunOf(s, LoadSteps(SortedIds(days))), Stale({}, {}))
  {
    hide RunOf, LoadSteps, CurrentOf, UniqueExposures, Versioned, OnlyLoads;
    var steps := LoadSteps(SortedIds(days));
    LoadStepsAre(SortedIds(days));
    LoadedBy(s, steps);
  }

  /** A consistent warehouse in which nothing is stale, refreshed or not. */
  ghost predicate AllLoaded(i: Input, s: State) {
    PipelineInv(i, s) && Inv(s, Open({}, {})) && Fresh(s, Stale({}, {}))
  }

  /** What every job keeps: one whose rollup is exact as well. */
  ghost predicate Good(i: Input, s: State) { AllLoaded(i, s) && Exact(s) }

  lemma GoodParts(i: Input, s: State)
    requires Good(i, s)
    ensures OfInput(i, s) && Fresh(s, Stale({}, {}))
  {
  }

  lemma LoadedParts(i: Input, s: State)
    requires AllLoaded(i, s)
    ensures OfInput(i, s) && Fresh(s, Stale({}, {})) && FromLake(s)
  {
  }

  lemma GoodIsConsistent(i: Input, s: State)
    requires Good(i, s)
    ensures PipelineInv(i, s) && Inv(s, Open({}, {}))
  {
  }

  /** What a load job needs: a consistent warehouse over the hot pass and all or nothing of
      the reconciliation, and days that cover what is stale. */
  ghost predicate Loadable(i: Input, s: State, days: set<int>, stale: Stale) {
    && PipelineInv(i, s) && Inv(s, Open({}, {})) && LakeHoldsHot(i, s) && AllOrNone(i, s.lakeRows)
    && Fresh(s, stale) && stale.exposureDays <= days && stale.rowDays <= days
  }

  lemma LoadsSettle(i: Input, s: State, days: set<int>, stale: Stale)
    requires Loadable(i, s, days, stale)
    ensures var t := RunOf(s, LoadSteps(SortedIds(days)));
      && PipelineInv(i, t) && Inv(t, Open({}, {})) && Settled(i, t)
      && t.lakeExposures == s.lakeExposures && t.lakeRows == s.lakeRows
  {
    hide RunOf, LoadSteps, HotRows, ReconRows, PublishedRow, CurrentOf, OnlyLoads, Fresh, Backed, Covered, Honest,
         Stamped, AllowedRun, PossibleRun, RisingRun, OpenOf, FromTheTwoPasses, UniqueExposures, AllOrNone,
         HoldsHot, Versioned;
    var steps := LoadSteps(SortedIds(days));
    LoadStepsAre(SortedIds(days));
    LoadsAllowed(i, s, steps);
    ProtocolRunRises(i, s, steps);
    LoadsPossible(s, steps, Open({}, {}));
    RunKeepsInv(s, steps, Open({}, {}));
    LoadedBy(s, steps);
    LoadingFreshens(s, days, stale);
  }

  /** A load job over a consistent warehouse that covers what is stale ends exact. */
  lemma LoadJobIsGood(i: Input, s: State, days: set<int>, stale: Stale)
    requires Loadable(i, s, days, stale) && days != {}
    ensures Good(i, LoadJob(s, days))
    ensures LoadJob(s, days).lakeExposures == s.lakeExposures && LoadJob(s, days).lakeRows == s.lakeRows
  {
    hide RunOf, LoadSteps, Next, Loadable, Good, PipelineInv, Inv, Settled;
    LoadsSettle(i, s, days, stale);
    RefreshFinishes(i, RunOf(s, LoadSteps(SortedIds(days))));
  }

  lemma RefreshFinishes(i: Input, s: State)
    requires PipelineInv(i, s) && Inv(s, Open({}, {})) && Settled(i, s)
    ensures Good(i, Next(s, Refresh))
    ensures Next(s, Refresh).lakeExposures == s.lakeExposures && Next(s, Refresh).lakeRows == s.lakeRows
  {
    hide LakeHoldsHot, AllOrNone, PipelineInv, Inv, Next, Fresh, Exact, Recomputed;
    RefreshIsExact(s);
    AllowedKeepsInv(i, s, Refresh);
    InvAfterRefresh(s);
    RefreshFrame(s);
    SameFresh(s, Next(s, Refresh));
  }

  lemma InvAfterRefresh(s: State)
    requires Inv(s, Open({}, {}))
    ensures Inv(Next(s, Refresh), Open({}, {}))
  {
    hide Inv, Next;
    StepKeepsInv(s, Refresh, Open({}, {}));
  }

  lemma SameFresh(s: State, t: State)
    requires Fresh(s, Stale({}, {}))
    requires t.lakeExposures == s.lakeExposures && t.lakeRows == s.lakeRows && t.exposures == s.exposures &&
        t.rows == s.rows
    ensures Fresh(t, Stale({}, {}))
  {
  }

  /** Landing rows of the two passes keeps the warehouse consistent; what was landed into is
      stale until it is loaded. */
  lemma LandingKeeps(i: Input, s: State, step: Step)
    requires PipelineInv(i, s) && Inv(s, Open({}, {})) && Fresh(s, Stale({}, {}))
    requires step.LandExposures? || step.LandRows?
    requires Allowed(i, s, step)
    ensures PipelineInv(i, Next(s, step)) && Inv(Next(s, step), Open({}, {}))
    ensures Fresh(Next(s, step), StaleAfter(s, Stale({}, {}), step))
  {
    hide HotRows, ReconRows, Inv, Next, Fresh, PipelineInv, Possible, Settled, FromTheTwoPasses;
    AllowedKeepsInv(i, s, step);
    OneLoadRises(i, s, step);
    StepKeepsInv(s, step, Open({}, {}));
    InvLake(s, Open({}, {}));
    StepKeepsFresh(s, step, Stale({}, {}));
  }

  lemma InvLake(s: State, open: Open)
    requires Inv(s, open)
    ensures FromLake(s)
  {
  }

  // ---------- the hot job ----------

  function EmptyWarehouse(): State { State([], [], {}, {}, {}, {}, {}) }

  lemma EmptyIsGood(i: Input)
    requires UniqueExposures(i.exposures)
    ensures Good(i, EmptyWarehouse()) && AllOrNone(i, EmptyWarehouse().lakeRows)
  {
    hide HotRows, ReconRows, Items;
    var s := EmptyWarehouse();
    UnloadedInv(s);
    NothingToAggregate(s);
    assert FinalHourly({}) == {};
  }

  /** The hot job, first or repeated, from any good warehouse. */
  lemma EngineJobIsGood(i: Input, s: State)
    requires Good(i, s) && AllOrNone(i, s.lakeRows)
    ensures Good(i, EngineJob(s, i))
    ensures EngineJob(s, i).lakeExposures == s.lakeExposures + i.exposures
    ensures EngineJob(s, i).lakeRows == s.lakeRows + HotRows(i)
  {
    hide HotRows, ReconRows, PipelineInv, Inv, Exact, LoadJob, RunOf, Fresh, DaysAired, DaysOf;
    var s1 := Next(s, LandExposures(i.exposures));
    var s2 := Next(s1, LandRows(HotRows(i)));
    var days := DaysAired(i.exposures) + DaysOf(HotRows(i));
    LandBoth(i, s);
    if days == {} {
      NoDaysNothingLanded(i, s);
    } else {
      HotIsNotRecon(i, s);
      LoadJobIsGood(i, s2, days, Stale(DaysAired(i.exposures), DaysOf(HotRows(i))));
    }
  }

  lemma LandBoth(i: Input, s: State)
    requires Good(i, s)
    ensures var t := Next(Next(s, LandExposures(i.exposures)), LandRows(HotRows(i)));
      && PipelineInv(i, t) && Inv(t, Open({}, {})) && Fresh(t, Stale(DaysAired(i.exposures), DaysOf(HotRows(i))))
      && t.lakeExposures == s.lakeExposures + i.exposures && t.lakeRows == s.lakeRows + HotRows(i)
  {
    hide HotRows, ReconRows, PipelineInv, Inv, Exact, Fresh, DaysAired, DaysOf;
    var s1 := Next(s, LandExposures(i.exposures));
    assert {} + DaysAired(i.exposures) == DaysAired(i.exposures) && {} + DaysOf(HotRows(i)) == DaysOf(HotRows(i));
    LandingKeeps(i, s, LandExposures(i.exposures));
    // The rows are landed over exposures that are stale already.
    AllowedKeepsInv(i, s1, LandRows(HotRows(i)));
    OneLoadRises(i, s1, LandRows(HotRows(i)));
    StepKeepsInv(s1, LandRows(HotRows(i)), Open({}, {}));
    InvLake(s1, Open({}, {}));
    StepKeepsFresh(s1, LandRows(HotRows(i)), Stale(DaysAired(i.exposures), {}));
  }

  lemma HotIsNotRecon(i: Input, s: State)
    requires AllOrNone(i, s.lakeRows)
    ensures AllOrNone(i, s.lakeRows + HotRows(i))
  {
    hide HotRows, ReconRows;
    forall x | x in ReconRows(i) ensures x !in HotRows(i) { RecoveredIsNotHot(i, x); }
  }

  lemma NoDaysNothingLanded(i: Input, s: State)
    requires DaysAired(i.exposures) + DaysOf(HotRows(i)) == {}
    ensures EngineJob(s, i) == s && s.lakeExposures + i.exposures == s.lakeExposures &&
        s.lakeRows + HotRows(i) == s.lakeRows
  {
    hide HotRows;
    forall e ensures e !in i.exposures { assert e in i.exposures ==> EventDay(e) in DaysAired(i.exposures); }
    forall a ensures a !in HotRows(i) { assert a in HotRows(i) ==> a.Day() in DaysOf(HotRows(i)); }
    FirstIn(i.exposures);
    FirstIn(HotRows(i));
    assert s.lakeExposures + [] == s.lakeExposures && s.lakeRows + [] == s.lakeRows;
  }

  // ---------- the reconciliation job ----------

  ghost predicate LakeHoldsBoth(i: Input, s: State) {
    SameSet(s.lakeExposures, i.exposures) && forall x :: x in s.lakeRows <==> x in HotRows(i) || x in ReconRows(i)
  }

  /** Over the hot pass a reconciliation lands exactly the recoveries; over both passes it
      lands nothing, whether or not serving has loaded them. */
  lemma CorrectionsAre(i: Input, s: State)
    requires UniqueExposures(i.exposures) && SameSet(s.lakeExposures, i.exposures)
    ensures SameSet(s.lakeRows, HotRows(i)) && ReconciledAtFor(ServedMaxIngest(s)) == ReconciledAt(i) ==>
              SameSet(Corrections(s, CandidateDays(s.lakeRows)), ReconRows(i))
    ensures LakeHoldsBoth(i, s) ==> Corrections(s, CandidateDays(s.lakeRows)) == []
  {
    hide HotRows, ReconRows, CandidateDays, RecoveredByDay, ServedMaxIngest, ReconciledAt;
    if SameSet(s.lakeRows, HotRows(i)) && ReconciledAtFor(ServedMaxIngest(s)) == ReconciledAt(i) {
      var landed := Corrections(s, CandidateDays(s.lakeRows));
      forall x ensures x in landed <==> x in ReconRows(i) { FirstPassLandsRecon(i, s.lakeExposures, s.lakeRows, x); }
    }
    if LakeHoldsBoth(i, s) {
      SecondPassLandsNothing(i, s.lakeExposures, s.lakeRows, ReconciledAtFor(ServedMaxIngest(s)));
    }
  }

  /** The reconciliation job from any loaded warehouse that holds the hot pass, even if the
      refresh of that pass crashed: it ends good if and only if it recovers something, for
      then it refreshes every dirty key, or the rollup was exact already. */
  lemma LoadedReconcileIff(i: Input, s: State)
    requires AllLoaded(i, s) && LakeHoldsHot(i, s) && AllOrNone(i, s.lakeRows)
    ensures var u := ReconcileJob(s, CandidateDays(s.lakeRows));
      && AllLoaded(i, u) && LakeHoldsBoth(i, u)
      && (Exact(u) <==> Corrections(s, CandidateDays(s.lakeRows)) != [] || Exact(s))
  {
    hide HotRows, ReconRows, PipelineInv, Inv, Exact, LoadJob, Fresh, DaysOf, Corrections, CandidateDays,
         UniqueExposures, Allowed;
    var landed := Corrections(s, CandidateDays(s.lakeRows));
    var s1 := Next(s, LandRows(landed));
    LandedIsRest(i, s);
    LoadedParts(i, s);
    CorrectionsAllowed(i, s, CandidateDays(s.lakeRows));
    LandingKeeps(i, s, LandRows(landed));
    NoDaysOff(DaysOf(landed));
    if DaysOf(landed) == {} {
      NothingToLoad(s, landed);
    } else {
      LoadJobIsGood(i, s1, DaysOf(landed), Stale({}, DaysOf(landed)));
      assert landed != [] by { if landed == [] { NoRowsNoDays(landed); } }
    }
  }

  lemma NoRowsNoDays(rows: seq<Attributed>)
    requires rows == []
    ensures DaysOf(rows) == {}
  {
  }

  /** From any good warehouse that holds the hot pass. */
  lemma ReconcileJobIsGood(i: Input, s: State)
    requires Good(i, s) && LakeHoldsHot(i, s) && AllOrNone(i, s.lakeRows)
    ensures var u := ReconcileJob(s, CandidateDays(s.lakeRows));
      Good(i, u) && LakeHoldsBoth(i, u)
  {
    hide AllLoaded, Exact, LakeHoldsHot, LakeHoldsBoth, AllOrNone, ReconcileJob, CandidateDays;
    LoadedReconcileIff(i, s);
  }

  lemma NoDaysOff(days: set<int>)
    ensures {} + days == days
  {
  }

  lemma NothingToLoad(s: State, landed: seq<Attributed>)
    requires DaysOf(landed) == {}
    ensures Next(s, LandRows(landed)) == s && LoadJob(s, DaysOf(landed)) == s && landed == []
  {
    forall a ensures a !in landed { assert a in landed ==> a.Day() in DaysOf(landed); }
    FirstIn(landed);
    assert s.lakeRows + [] == s.lakeRows;
  }

  /** What lands completes the two passes. */
  lemma LandedIsRest(i: Input, s: State)
    requires AllLoaded(i, s) && LakeHoldsHot(i, s) && AllOrNone(i, s.lakeRows)
    ensures var landed := Corrections(s, CandidateDays(s.lakeRows));
      && FromTheTwoPasses(i, landed) && LakeHoldsBoth(i, Next(s, LandRows(landed)))
      && AllOrNone(i, s.lakeRows + landed)
  {
    hide HotRows, ReconRows, Inv, Exact, Fresh, Corrections, CandidateDays, PublishedRow, FromLake,
         ServedMaxIngest, ReconciledAt;
    var landed := Corrections(s, CandidateDays(s.lakeRows));
    ReconciledAtIsFixed(i, s);
    CorrectionsAre(i, s);
    if forall x :: x in ReconRows(i) ==> x in s.lakeRows {
      assert LakeHoldsBoth(i, s);
    } else {
      assert SameSet(s.lakeRows, HotRows(i));
    }
  }

  /** A reconciliation that landed but crashed before it loaded is not repaired by running
      it again: the next run finds nothing to land, so it loads nothing. */
  lemma LandedButUnloadedStaysUnloaded(i: Input, s: State)
    requires UniqueExposures(i.exposures) && LakeHoldsBoth(i, s)
    ensures ReconcileJob(s, CandidateDays(s.lakeRows)) == s
  {
    hide HotRows, ReconRows, Corrections, CandidateDays;
    CorrectionsAre(i, s);
    NothingToLoad(s, []);
  }

  // ---------- end to end ----------

  /** From an empty warehouse: the hot job serves the rollup of the hot pass, the
      reconciliation that follows serves the rollup of both passes and the final row of
      every conversion, and a further reconciliation changes nothing at all. */
  lemma EndToEnd(i: Input)
    requires UniqueExposures(i.exposures)
    ensures var t := EngineJob(EmptyWarehouse(), i);
      var u := ReconcileJob(t, CandidateDays(t.lakeRows));
      && FinalHourly(t.hourly) == Rebuild(HotItems(i))
      && FinalHourly(u.hourly) == Rebuild(BothItems(i))
      && (forall a :: a in HotRows(i) ==>
            forall f: Attributed :: f.Cid() == a.Cid() ==> (f in FinalRows(u.rows) <==> f == FinalRow(i, a)))
      && ReconcileJob(u, CandidateDays(u.lakeRows)) == u
  {
    hide HotRows, ReconRows, PipelineInv, Inv, Fresh, Corrections, CandidateDays, UniqueExposures, EngineJob,
         ReconcileJob, Items, HotItems, BothItems, AllOrNone, Rebuild, Final, FinalRow;
    var e := EmptyWarehouse();
    var t := EngineJob(e, i);
    var u := ReconcileJob(t, CandidateDays(t.lakeRows));
    EmptyIsGood(i);
    EngineJobIsGood(i, e);
    assert t.lakeExposures == i.exposures && t.lakeRows == HotRows(i) by {
      assert [] + i.exposures == i.exposures && [] + HotRows(i) == HotRows(i);
    }
    HotSetOnly(i, t);
    ReconcileJobIsGood(i, t);
    ServesBoth(i, u);
    LandedButUnloadedStaysUnloaded(i, u);
    forall a, f: Attributed | a in HotRows(i) && f.Cid() == a.Cid()
      ensures f in FinalRows(u.rows) <==> f == FinalRow(i, a)
    {
      ServesFinalRow(i, u, a, f);
    }
  }

  /** The same on the fields of the rows. With exposures in tolerance, conversions as late as they
      like, and a run that does not raise: serving then holds of every conversion one newest
      row, credited iff a household that it may belong to was shown something in the ninety
      days up to it, to the latest such exposure; and the newest rows of the rollup are exactly
      the campaign hours that the served tables give. */
  lemma EndToEndMeaning(i: Input)
    requires UniqueExposures(i.exposures)
    requires RunInTolerance(i.exposures, i.resolved, i.lateness) && !RunRaises(i.resolved)
    ensures var t := EngineJob(EmptyWarehouse(), i);
      var u := ReconcileJob(t, CandidateDays(t.lakeRows));
      && (forall e :: e in u.exposures <==> e in i.exposures)
      && (forall c :: c in OneRow(i.resolved) ==>
            exists a :: a in u.rows && !Superseded(a, u.rows) && DecidedBest(i, c, a))
      && (forall h: Hourly ::
            (h in u.hourly && (forall g :: g in u.hourly && g.key == h.key ==> g.reportedAt <= h.reportedAt)) <==>
            (IsHour(h, u.rows, u.exposures) && exists e :: e in u.exposures && HourHolds(h.key, e)))
  {
    hide HotRows, ReconRows, PipelineInv, Inv, Fresh, Corrections, CandidateDays, UniqueExposures, EngineJob,
         ReconcileJob, Items, HotItems, BothItems, AllOrNone, Rebuild, Final, FinalRow, IsHour, HourHolds, Superseded,
         OneRow, RunInTolerance, RunRaises, DecidedBest, Good;
    var t := EngineJob(EmptyWarehouse(), i);
    var u := ReconcileJob(t, CandidateDays(t.lakeRows));
    AfterBothJobs(i);
    GoodIsServed(i, u);
    ExactMeaning(u);
    forall c | c in OneRow(i.resolved)
      ensures exists a :: a in u.rows && !Superseded(a, u.rows) && DecidedBest(i, c, a)
    {
      var a := ServedDecision(i, u, c);
    }
  }

  /** What is served of a conversion: credited iff there is something to credit, to the latest. */
  ghost predicate DecidedBest(i: Input, c: Resolved, a: Attributed) {
    && a.res.conv == c.conv
    && (a.attributed <==> exists e :: e in i.exposures && MayBelongTo(i.resolved, c, e.householdId)
                                      && c.conv.eventTime - 7_776_000_000 <= e.eventTime <= c.conv.eventTime)
    && (if a.attributed then
          exists e :: IsLatestExposure(i, c, e) && a.exposureId == Some(e.exposureId)
                      && a.res.householdId == e.householdId
        else a.exposureId == None)
  }

  lemma AfterBothJobs(i: Input)
    requires UniqueExposures(i.exposures)
    ensures var t := EngineJob(EmptyWarehouse(), i);
      var u := ReconcileJob(t, CandidateDays(t.lakeRows));
      Good(i, u) && LakeHoldsBoth(i, u)
  {
    hide HotRows, ReconRows, Good, CandidateDays, EngineJob, ReconcileJob, AllOrNone, UniqueExposures, Items, HotItems;
    var e := EmptyWarehouse();
    var t := EngineJob(e, i);
    EmptyIsGood(i);
    EngineJobIsGood(i, e);
    assert t.lakeExposures == i.exposures && t.lakeRows == HotRows(i) by {
      assert [] + i.exposures == i.exposures && [] + HotRows(i) == HotRows(i);
    }
    HotSetOnly(i, t);
    ReconcileJobIsGood(i, t);
  }

  lemma GoodIsServed(i: Input, s: State)
    requires Good(i, s) && LakeHoldsBoth(i, s)
    ensures Exact(s) && Fresh(s, Stale({}, {})) && FromLake(s)
    ensures forall e :: e in s.exposures <==> e in i.exposures
  {
    hide HotRows, ReconRows, PipelineInv, Exact;
  }

  lemma ServedDecision(i: Input, s: State, c: Resolved) returns (a: Attributed)
    requires Fresh(s, Stale({}, {})) && FromLake(s) && LakeHoldsBoth(i, s)
    requires RunInTolerance(i.exposures, i.resolved, i.lateness) && !RunRaises(i.resolved) && c in OneRow(i.resolved)
    ensures a in s.rows && !Superseded(a, s.rows) && DecidedBest(i, c, a)
  {
    hide HotRows, ReconRows, OneRow, RunInTolerance, Superseded, Fresh, FromLake, CurrentOf, MayBelongTo,
         IsLatestExposure, Final;
    assert !Raises(c, CandidateHouseholds(i.resolved));
    a := TwoPathMeaning(i, s.lakeRows, c);
    FinalIsCurrent(s, Stale({}, {}), a);
    FinalMeaning(s.rows, a);
  }

  lemma ServesBoth(i: Input, s: State)
    requires Good(i, s) && LakeHoldsBoth(i, s)
    ensures ItemsOf(s) == BothItems(i) && HoldsRecon(i, s) && Settled(i, s)
  {
    hide HotRows, ReconRows, ItemsOf, HotItems, BothItems, PublishedRow, Inv, Exact, CurrentOf;
    SettledHolds(i, s);
    forall x | x in ReconRows(i) ensures x in s.rows {
      var h := Corrects(i, x);
      CreditIsFinal(i, s.lakeRows, x);
    }
    ItemsLieBetween(i, s);
  }

  /** What is served of a conversion is its final row. */
  lemma ServesFinalRow(i: Input, s: State, a: Attributed, f: Attributed)
    requires Good(i, s) && LakeHoldsBoth(i, s) && a in HotRows(i) && f.Cid() == a.Cid()
    ensures f in FinalRows(s.rows) <==> f == FinalRow(i, a)
  {
    hide HotRows, ReconRows, ItemsOf, PublishedRow, Inv, Exact, CurrentOf, FinalRow, Final;
    CurrentAfterBoth(i, s.lakeRows, a);
    FinalIsCurrent(s, Stale({}, {}), f);
  }

  /** What a reconciliation does to the reports: from before it to after it no measure of any
      campaign falls, spend and exposures stay, and the credited conversions of all campaigns
      rise by exactly the number of corrections that it landed. */
  lemma ReconciliationRestates(i: Input, s: State, c: Id, m: Measure)
    requires Good(i, s) && LakeHoldsHot(i, s) && SameSet(s.lakeRows, HotRows(i))
    ensures var u := ReconcileJob(s, CandidateDays(s.lakeRows));
      && Sum(OfCampaign(ItemsOf(s), c, false), m) <= Sum(OfCampaign(ItemsOf(u), c, false), m)
      && (m == Spend || m == Rollup.Exposures ==>
            Sum(OfCampaign(ItemsOf(s), c, false), m) == Sum(OfCampaign(ItemsOf(u), c, false), m))
      && Sum(ItemsOf(u), Conversions) == Sum(ItemsOf(s), Conversions) + |Corrections(s, CandidateDays(s.lakeRows))|
  {
    hide HotRows, ReconRows, Inv, Exact, Fresh, Corrections, CandidateDays, UniqueExposures, ItemsOf, HotItems,
         BothItems, Sum, PublishedRow, ReconcileJob, OfCampaign, HoldsHot;
    var u := ReconcileJob(s, CandidateDays(s.lakeRows));
    HotSetOnly(i, s);
    ReconcileJobIsGood(i, s);
    ServesBoth(i, u);
    SettledHolds(i, s);
    SettledHolds(i, u);
    HotReportIsInvariant(i, s, c);
    AllShown(i, c);
    RestatementNeverLowers(i, s, u, c, m);
    RestatementIsAccountedFor(i);
    AsManyCorrections(i, s);
  }

  /** The two reports that end a reconciliation: over all campaigns the later one has exactly
      the landed corrections more conversions than the earlier one. */
  lemma ReportsDifferByCorrections(i: Input, s: State)
    requires Good(i, s) && LakeHoldsHot(i, s) && SameSet(s.lakeRows, HotRows(i))
    ensures var u := ReconcileJob(s, CandidateDays(s.lakeRows));
      var pre := set r | r in BothReports(u) && r.reportedAt == ServedMaxIngest(u);
      var post := set r | r in BothReports(u) && r.reportedAt == ServedMaxIngest(u) + 1000;
      ReportedConversions(post) == ReportedConversions(pre) + |Corrections(s, CandidateDays(s.lakeRows))|
  {
    hide HotRows, ReconRows, Inv, Exact, Fresh, Corrections, CandidateDays, UniqueExposures, ItemsOf, HotItems,
         BothItems, Sum, PublishedRow, ReconcileJob, HoldsHot, ServedMaxIngest, ReportedConversions, BothReports,
         CreditsTo;
    var u := ReconcileJob(s, CandidateDays(s.lakeRows));
    HotSetOnly(i, s);
    ReconcileJobIsGood(i, s);
    ServesBoth(i, u);
    SettledHolds(i, u);
    HotCredits(i, u);
    AllCredits(u);
    RestatementIsAccountedFor(i);
    AsManyCorrections(i, s);
    ReportsByTime(u);
    SnapshotReportsAll(u, 0, true);
    SnapshotReportsAll(u, 1000, false);
  }

  lemma ReportsByTime(s: State)
    ensures (set r | r in BothReports(s) && r.reportedAt == ServedMaxIngest(s)) == Snapshot(s, 0, true)
    ensures (set r | r in BothReports(s) && r.reportedAt == ServedMaxIngest(s) + 1000) == Snapshot(s, 1000, false)
  {
    hide ServedMaxIngest, ReportOf;
    forall r | r in Snapshot(s, 0, true) ensures r.reportedAt == ServedMaxIngest(s) { ReportedWhen(s, 0, true, r); }
    forall r | r in Snapshot(s, 1000, false) ensures r.reportedAt == ServedMaxIngest(s) + 1000 {
      ReportedWhen(s, 1000, false, r);
    }
  }

  lemma ReportedWhen(s: State, offset: Time, hotOnly: bool, r: Report)
    requires r in Snapshot(s, offset, hotOnly)
    ensures r.reportedAt == ServedMaxIngest(s) + offset
  {
    hide ServedMaxIngest, SnapshotVersion, Sum;
  }

  lemma AllCredits(s: State)
    ensures |CreditsTo(s.rows, s.exposures, false)| == Sum(ItemsOf(s), Conversions)
  {
    hide ItemsOf, Sum, CreditsTo, TotalSpend, TotalRevenue;
    SumsMean(ItemsOf(s));
    var all := CreditsIn(ItemsOf(s));
    forall c ensures c in all <==> c in CreditsTo(s.rows, s.exposures, false) {
      var x := Credited(c.0, c.1);
      CreditedItem(s, x.a, x.e);
      if x in ItemsOf(s) { assert (x.a, x.e) in all; }
    }
    SameMembers(all, CreditsTo(s.rows, s.exposures, false));
  }

  /** In any state that holds the hot pass, the hot credits are the hot pass's. */
  lemma HotCredits(i: Input, s: State)
    requires PipelineInv(i, s) && HoldsHot(i, s)
    ensures |CreditsTo(s.rows, s.exposures, true)| == Sum(HotItems(i), Conversions)
  {
    hide ItemsOf, HotItems, Sum, TotalSpend, TotalRevenue, PipelineInv, HoldsHot, Superseded;
    SumsMean(HotItems(i));
    var hot, cs := CreditsIn(HotItems(i)), CreditsTo(s.rows, s.exposures, true);
    HotItemsAreHot(i);
    forall a, e: Exposure ensures (a, e) in hot <==> (a, e) in cs {
      HotReportIsInvariant(i, s, e.campaignId);
      CreditedItem(s, a, e);
      var x := Credited(a, e);
      assert x in OfCampaign(ItemsOf(s), e.campaignId, true) <==> x in OfCampaign(HotItems(i), e.campaignId, true);
      if x in HotItems(i) { assert (x.a, x.e) in hot; }
    }
    SameMembers(hot, cs);
  }

  lemma HotItemsAreHot(i: Input)
    ensures forall x :: x in HotItems(i) ==> Shown(x, true)
  {
    hide HotRows, HotItems;
    HotIs(i);
    forall x | x in HotItems(i) ensures Shown(x, true) { HotItemIs(i, x); }
  }

  /** A good warehouse whose lake is the hot pass aggregates exactly the hot pass. */
  lemma HotSetOnly(i: Input, s: State)
    requires Good(i, s) && LakeHoldsHot(i, s) && SameSet(s.lakeRows, HotRows(i))
    ensures ItemsOf(s) == HotItems(i) && AllOrNone(i, s.lakeRows)
  {
    hide HotRows, ReconRows, ItemsOf, HotItems, BothItems, PublishedRow, Inv, Exact, Fresh;
    forall x | x in ReconRows(i) ensures x !in HotRows(i) { RecoveredIsNotHot(i, x); }
    SettledHolds(i, s);
    ItemsLieBetween(i, s);
  }

  lemma AllShown(i: Input, c: Id)
    ensures OfCampaign(HotItems(i), c, true) == OfCampaign(HotItems(i), c, false)
  {
    hide HotRows, HotItems;
    HotIs(i);
    forall x | x in HotItems(i) ensures Shown(x, true) { HotItemIs(i, x); }
  }

  lemma AsManyCorrections(i: Input, s: State)
    requires Good(i, s) && LakeHoldsHot(i, s) && SameSet(s.lakeRows, HotRows(i))
    ensures |Corrections(s, CandidateDays(s.lakeRows))| == |ReconRows(i)|
  {
    hide HotRows, ReconRows, Inv, Exact, Fresh, CandidateDays, PublishedRow, FromLake, ServedMaxIngest, ReconciledAt,
         RecoveredByDay;
    var days, landed := CandidateDays(s.lakeRows), Corrections(s, CandidateDays(s.lakeRows));
    GoodParts(i, s);
    ReconciledAtIsFixed(i, s);
    CorrectionsAre(i, s);
    DaysAscend(s.lakeRows);
    RecoveredByDayOnce(days, s.lakeExposures, s.lakeRows, LONG_WINDOW, ReconciledAtFor(ServedMaxIngest(s)));
    DistinctCount(landed);
    RecoveredAreDistinct(i);
    assert (set x | x in landed) == ReconSet(i);
  }

  lemma DaysAscend(rows: seq<Attributed>)
    ensures Distinct(CandidateDays(rows))
  {
    hide LakeCandidates;
  }

  // ---------- repairs ----------

  function ReplayDays(s: State): set<int> { DaysAired(s.lakeExposures) + DaysOf(s.lakeRows) }

  ghost function ReplayJob(s: State): State { LoadJob(Next(s, Truncate), ReplayDays(s)) }

  /** These are the days that `LakeDays` returns: those whose load inserts a row. */
  lemma ReplayDaysAre(s: State, day: int)
    ensures day in ReplayDays(s) <==> DayExposures(s, day) != {} || DayRows(s, day) != {}
  {
    hide DayExposures, DayRows;
    SomethingOn(s, day);
  }

  /** A replay repairs whatever state the serving tables were in: afterwards they hold the
      lake's exposures and current rows, and the rollup is the rebuild from the lake. */
  lemma ReplayRepairs(s: State)
    requires UniqueExposures(s.lakeExposures) && Versioned(s.lakeRows) && ReplayDays(s) != {}
    ensures FinalHourly(ReplayJob(s).hourly) == Rebuild(LakeItems(s))
    ensures forall e :: e in ReplayJob(s).exposures <==> e in s.lakeExposures
    ensures forall a :: a in FinalRows(ReplayJob(s).rows) <==> CurrentOf(s.lakeRows, a.Cid()) == Some(a)
  {
    hide RunOf, LoadSteps, Next, OnlyLoads, OpenOf, PossibleRun, RisingRun, Rebuild, LakeItems, CurrentOf,
         UniqueExposures, Versioned, Inv, Exact, Final, Fresh, DaysAired, DaysOf;
    var s0, days := Next(s, Truncate), ReplayDays(s);
    var steps := LoadSteps(SortedIds(days));
    var t := RunOf(s0, steps);
    TruncatedIsUnloaded(s);
    LoadStepsAre(SortedIds(days));
    LoadsPossible(s0, steps, Open({}, {}));
    FirstLoadsRise(s0, steps);
    UnloadedInv(s0);
    RunKeepsInv(s0, steps, Open({}, {}));
    InvLake(s0, Open({}, {}));
    InvLake(t, Open({}, {}));
    AllStale(s0, Stale(DaysAired(s0.lakeExposures), DaysOf(s0.lakeRows)));
    LoadedBy(s0, steps);
    LoadingFreshens(s0, days, Stale(DaysAired(s0.lakeExposures), DaysOf(s0.lakeRows)));
    RefreshIsExact(t);
    RefreshKeepsItems(t);
    RefreshFrame(t);
    FreshServes(t, s);
    SameExact(Next(t, Refresh));
  }

  lemma SameExact(s: State)
    requires Exact(s)
    ensures FinalHourly(s.hourly) == Rebuild(ItemsOf(s))
  {
  }

  lemma TruncatedIsUnloaded(s: State)
    requires UniqueExposures(s.lakeExposures) && Versioned(s.lakeRows)
    ensures Unloaded(Next(s, Truncate)) && Next(s, Truncate).hourly == {}
    ensures Next(s, Truncate).lakeExposures == s.lakeExposures && Next(s, Truncate).lakeRows == s.lakeRows
  {
  }

  lemma FreshServes(t: State, s: State)
    requires FromLake(t) && Fresh(t, Stale({}, {})) && t.lakeExposures == s.lakeExposures && t.lakeRows == s.lakeRows
    ensures ItemsOf(t) == LakeItems(s)
    ensures forall e :: e in t.exposures <==> e in s.lakeExposures
    ensures forall a :: a in FinalRows(t.rows) <==> CurrentOf(s.lakeRows, a.Cid()) == Some(a)
  {
    hide CurrentOf, Final, UniqueExposures, Versioned, Items;
    NothingStale(t);
    forall a ensures a in FinalRows(t.rows) <==> CurrentOf(s.lakeRows, a.Cid()) == Some(a) {
      FinalIsCurrent(t, Stale({}, {}), a);
    }
  }

  /** Over a lake that holds the whole hot pass a replay leaves the warehouse good. */
  lemma ReplayIsGood(i: Input, s: State)
    requires OfInput(i, s) && LakeHoldsHot(i, s) && AllOrNone(i, s.lakeRows) && ReplayDays(s) != {}
    ensures Good(i, ReplayJob(s))
    ensures ReplayJob(s).lakeExposures == s.lakeExposures && ReplayJob(s).lakeRows == s.lakeRows
  {
    hide HotRows, ReconRows, PipelineInv, Inv, LoadJob, Fresh, AllOrNone, Good, DaysAired, DaysOf, FromTheTwoPasses;
    var s0 := Next(s, Truncate);
    TruncatedKeeps(i, s);
    AllStale(s0, Stale(DaysAired(s0.lakeExposures), DaysOf(s0.lakeRows)));
    LoadJobIsGood(i, s0, ReplayDays(s), Stale(DaysAired(s0.lakeExposures), DaysOf(s0.lakeRows)));
  }

  lemma TruncatedKeeps(i: Input, s: State)
    requires OfInput(i, s)
    ensures PipelineInv(i, Next(s, Truncate)) && Inv(Next(s, Truncate), Open({}, {}))
    ensures Next(s, Truncate).lakeExposures == s.lakeExposures && Next(s, Truncate).lakeRows == s.lakeRows
  {
    hide HotRows, ReconRows, Items;
    NothingToAggregate(Next(s, Truncate));
  }

  /** A replay reproduces exactly what a good incremental history serves. */
  lemma ReplayReproduces(i: Input, s: State)
    requires Good(i, s) && ReplayDays(s) != {}
    ensures FinalHourly(ReplayJob(s).hourly) == FinalHourly(s.hourly)
    ensures FinalRows(ReplayJob(s).rows) == FinalRows(s.rows) && ReplayJob(s).exposures == s.exposures
  {
    hide HotRows, ReconRows, Inv, ReplayJob, LakeItems, Rebuild, CurrentOf, Final, PublishedRow, UniqueExposures,
         Versioned, ReplayDays, Items, Fresh;
    ReplayRepairs(s);
    FreshServes(s, s);
    forall a ensures a in FinalRows(ReplayJob(s).rows) <==> a in FinalRows(s.rows) {}
    forall e ensures e in ReplayJob(s).exposures <==> e in s.exposures {}
  }

  lemma {:induction false} LoadsClose(open: Open, days: seq<int>)
    ensures OpenOf(open, LoadSteps(days)) ==
            Open(open.exposureDays - (set d | d in days), open.rowDays - (set d | d in days))
  {
    if days != [] {
      LoadsClose(open, Init(days));
      assert days == Init(days) + [Last(days)];
      OpenAppend(open, LoadSteps(Init(days)), [LoadExposures(Last(days)), LoadRows(Last(days))]);
      var mid := OpenOf(open, LoadSteps(Init(days)));
      var two := [LoadExposures(Last(days)), LoadRows(Last(days))];
      var one, next := two[1..], OpenAfter(mid, two[0]);
      assert one == [LoadRows(Last(days))] && one[1..] == [];
      assert OpenOf(next, one) == OpenOf(OpenAfter(next, one[0]), one[1..]) == OpenAfter(next, one[0]);
      assert OpenOf(mid, two) == OpenOf(next, one);
      assert (set d | d in days) == (set d | d in Init(days)) + {Last(days)};
    }
  }

  lemma {:induction false} OpenAppend(open: Open, x: seq<Step>, y: seq<Step>)
    ensures OpenOf(open, x + y) == OpenOf(OpenOf(open, x), y)
    decreases |x|
  {
    hide OpenAfter;
    if x == [] {
      assert x + y == y;
    } else {
      assert (x + y)[0] == x[0] && (x + y)[1..] == x[1..] + y;
      OpenAppend(OpenAfter(open, x[0]), x[1..], y);
    }
  }

  /** Over an input without exposures and conversions there is nothing to get wrong. */
  lemma NothingIsGood(i: Input, s: State, open: Open)
    requires PipelineInv(i, s) && Inv(s, open) && DaysAired(i.exposures) + DaysOf(HotRows(i)) == {}
    ensures Good(i, s)
  {
    hide HotRows, ReconRows, PublishedRow, Items, UniqueExposures, Versioned;
    DaysOfTheHotPass(i, s);
    forall e ensures e !in s.lakeExposures {
      assert e in s.lakeExposures ==> EventDay(e) in DaysAired(s.lakeExposures);
    }
    forall a ensures a !in s.lakeRows { assert a in s.lakeRows ==> a.Day() in DaysOf(s.lakeRows); }
    assert s.exposures == {} && s.rows == {};
    NothingToAggregate(s);
    NothingPublishedOverNothing(s);
  }

  lemma NothingPublishedOverNothing(s: State)
    requires Honest(s) && ItemsOf(s) == {}
    ensures Exact(s)
  {
    hide Items, ItemsOf;
    forall h ensures h !in s.hourly { assert h in s.hourly ==> HonestRow(s, h); }
    assert Rebuild({}) == {};
  }

  lemma HotOfTwo(i: Input)
    ensures FromTheTwoPasses(i, HotRows(i))
  {
    hide HotRows, ReconRows;
  }

  /** Every row of the lake falls on a day of the hot pass. */
  lemma DaysOfTheHotPass(i: Input, s: State)
    requires OfInput(i, s)
    ensures DaysAired(s.lakeExposures) <= DaysAired(i.exposures) && DaysOf(s.lakeRows) <= DaysOf(HotRows(i))
  {
    hide HotRows, ReconRows, PublishedRow, FromLake;
    forall a | a in s.lakeRows ensures a.Day() in DaysOf(HotRows(i)) {
      if a in ReconRows(i) { var h := Corrects(i, a); }
    }
  }
}
