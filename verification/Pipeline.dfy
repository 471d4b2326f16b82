/** The pipeline's own protocol (orchestration/run.py, orchestration/replay.py): the stamp
    hypothesis of the rollup proved for the jobs as they are run, and runs of the same
    steps for which it fails. */
module Pipeline {
  import opened Rows
  import opened Orders
  import opened Leaf
  import opened Collapse
  import opened Lateness
  import opened Lake
  import opened Recover
  import opened Protocol
  import opened Rollup
  import opened Serving

  // ---------- what the two passes bring to the rollup ----------

  function HotSet(i: Input): set<Attributed> { set a | a in HotRows(i) }
  function ReconSet(i: Input): set<Attributed> { set a | a in ReconRows(i) }
  function AllExposures(i: Input): set<Exposure> { set e | e in i.exposures }

  /** What a rebuild aggregates after the hot pass, and after both. */
  function HotItems(i: Input): set<Item> { Joined(HotSet(i), AllExposures(i)) }
  function BothItems(i: Input): set<Item> { Joined(HotSet(i) + ReconSet(i), AllExposures(i)) }

  lemma TwoPassesAreVersioned(i: Input, rows: seq<Attributed>)
    requires FromTheTwoPasses(i, rows)
    ensures Versioned(rows)
  {
    hide HotRows, ReconRows;
    forall a, b | a in rows && b in rows && a.Cid() == b.Cid() && a != b
      ensures a.processedAt != b.processedAt && a.res.EventTime() == b.res.EventTime()
      ensures a.attributed ==> b.processedAt < a.processedAt
    {
      VersionsOf(i, a, b);
      VersionsOf(i, b, a);
    }
  }

  /** Whatever reconciliation credits is stamped later than anything the hot pass brought. */
  lemma ReconIsNewest(i: Input, hot: Item, x: Item)
    requires hot in HotItems(i) && x in BothItems(i) && x !in HotItems(i)
    ensures hot.Stamp() < x.Stamp() && x.Stamp() == ReconciledAt(i)
  {
    hide HotRows, ReconRows, LatestIngest, LatestRowIngest;
    HotIs(i);
    LatestIngestIs(i.exposures);
    LatestRowIngestIs(HotRows(i));
    JoinedIs(HotSet(i), AllExposures(i), x);
    JoinedIs(HotSet(i) + ReconSet(i), AllExposures(i), x);
    var h := Corrects(i, x.a);
  }

  // ---------- the stamp of a pass ----------

  /** A warehouse that holds nothing but rows of this input's two passes. */
  ghost predicate OfInput(i: Input, s: State) {
    && UniqueExposures(i.exposures)
    && (forall e :: e in s.lakeExposures ==> e in i.exposures)
    && FromTheTwoPasses(i, s.lakeRows)
    && FromLake(s)
  }

  lemma FromInput(i: Input, s: State)
    requires OfInput(i, s)
    ensures FromLake(s)
  {
  }

  ghost predicate LakeHoldsHot(i: Input, s: State) {
    (forall e :: e in i.exposures ==> e in s.lakeExposures) && (forall a :: a in HotRows(i) ==> a in s.lakeRows)
  }

  /** What a reconciliation of `days` lands: versions come from the serving tables. */
  function Corrections(s: State, days: seq<int>): seq<Attributed> {
    RecoveredByDay(days, s.lakeExposures, s.lakeRows, LONG_WINDOW, ReconciledAtFor(ServedMaxIngest(s)))
  }

  /** What one day's partition lands. */
  function PartitionRows(s: State, day: int): seq<Attributed> {
    PassOver(LakeCandidates(OnDay(s.lakeRows, day)), s.lakeExposures, LONG_WINDOW, ReconciledAtFor(ServedMaxIngest(s)))
  }

  /** Serving holds the latest arrival of the lake. */
  predicate ServesLatest(s: State) { ServedMaxIngest(s) == MaxIngest(s.lakeExposures, s.lakeRows) }

  lemma MaxOrEpochIs(s: set<Time>, top: Time)
    requires forall x :: x in s ==> x <= top
    requires if s == {} then top == 0 else top in s
    ensures MaxOrEpoch(s) == top
  {
  }

  /** A loaded warehouse reads the same `max(ingest_time)` whatever recoveries it holds, so
      every pass, and every partition of a pass, stamps the same version. */
  lemma ReconciledAtIsFixed(i: Input, s: State)
    requires OfInput(i, s) && LakeHoldsHot(i, s) && Fresh(s, Stale({}, {}))
    ensures ReconciledAtFor(ServedMaxIngest(s)) == ReconciledAt(i)
  {
    hide HotRows, ReconRows, ItemsOf, CurrentOf, LatestIngest, LatestRowIngest;
    LatestIngestIs(i.exposures);
    LatestRowIngestIs(HotRows(i));
    ExposureMax(i, s);
    RowMax(i, s);
  }

  lemma ExposureMax(i: Input, s: State)
    requires AllExposures(i) == s.exposures
    ensures MaxOrEpoch(ExposureIngests(s)) == LatestIngest(i.exposures)
  {
    hide LatestIngest;
    LatestIngestIs(i.exposures);
    var all := ExposureIngests(s);
    assert forall e :: e in i.exposures ==> e in s.exposures && e.ingestTime in all;
    if i.exposures == [] {
      assert s.exposures == {};
      assert all == {};
    }
    MaxOrEpochIs(all, LatestIngest(i.exposures));
  }

  /** Every conversion has one FINAL row, and all its versions share its ingest time. */
  lemma RowMax(i: Input, s: State)
    requires OfInput(i, s) && LakeHoldsHot(i, s) && Fresh(s, Stale({}, {}))
    ensures MaxOrEpoch(RowIngests(s)) == LatestRowIngest(HotRows(i))
  {
    hide HotRows, ReconRows, ItemsOf, CurrentOf, LatestRowIngest;
    LatestRowIngestIs(HotRows(i));
    var all := RowIngests(s);
    forall a | a in HotRows(i) ensures a.res.IngestTime() in all {
      CurrentIs(s.lakeRows, a.Cid());
      assert a.Cid() in CidsOf(s.lakeRows);
      var f := CurrentOf(s.lakeRows, a.Cid()).value;
      FinalIsCurrent(s, Stale({}, {}), f);
      assert f.res.conv == a.res.conv by { SameConv(i, f, a); }
    }
    forall f | f in FinalRows(s.rows) ensures exists a :: a in HotRows(i) && a.res.IngestTime() == f.res.IngestTime() {
      if f in ReconRows(i) { var h := Corrects(i, f); }
    }
    assert HotRows(i) == [] ==> all == {};
    MaxOrEpochIs(all, LatestRowIngest(HotRows(i)));
  }

  lemma SameConv(i: Input, a: Attributed, b: Attributed)
    requires (a in HotRows(i) || a in ReconRows(i)) && (b in HotRows(i) || b in ReconRows(i)) && a.Cid() == b.Cid()
    ensures a.res.conv == b.res.conv
  {
    VersionsOf(i, a, b);
  }

  lemma LatestIngestSame(a: seq<Exposure>, b: seq<Exposure>)
    requires SameSet(a, b)
    ensures LatestIngest(a) == LatestIngest(b)
  {
    hide LatestIngest;
    LatestIngestIs(a);
    LatestIngestIs(b);
    FirstIn(a);
    FirstIn(b);
  }

  /** Some row of `rows` arrived at `t`. */
  ghost predicate ArrivesAt(rows: seq<Attributed>, t: Time) { exists a :: a in rows && a.res.IngestTime() == t }

  lemma LatestRowIngestSame(a: seq<Attributed>, b: seq<Attributed>)
    requires forall x :: x in a ==> ArrivesAt(b, x.res.IngestTime())
    requires forall x :: x in b ==> ArrivesAt(a, x.res.IngestTime())
    ensures LatestRowIngest(a) == LatestRowIngest(b)
  {
    hide LatestRowIngest;
    LatestRowIngestIs(a);
    LatestRowIngestIs(b);
    FirstIn(a);
    FirstIn(b);
  }

  lemma LakeMaxIs(i: Input, s: State)
    requires OfInput(i, s) && LakeHoldsHot(i, s)
    ensures ReconciledAtFor(MaxIngest(s.lakeExposures, s.lakeRows)) == ReconciledAt(i)
  {
    hide HotRows, ReconRows, LatestIngest, LatestRowIngest, FromLake, UniqueExposures;
    LatestIngestSame(s.lakeExposures, i.exposures);
    forall a | a in s.lakeRows ensures ArrivesAt(HotRows(i), a.res.IngestTime()) {
      if a in ReconRows(i) { var h := Corrects(i, a); }
    }
    LatestRowIngestSame(s.lakeRows, HotRows(i));
  }

  /** With every day loaded serving holds the latest arrival. */
  lemma LoadedServesLatest(i: Input, s: State)
    requires OfInput(i, s) && LakeHoldsHot(i, s) && Fresh(s, Stale({}, {}))
    ensures ServesLatest(s)
  {
    hide HotRows, ReconRows, Fresh, FromLake, ServedMaxIngest, MaxIngest;
    ReconciledAtIsFixed(i, s);
    LakeMaxIs(i, s);
  }

  /** Whatever serving holds, a correction corrects the conversion's current row, a hot miss,
      and carries the version that serving gives. */
  lemma CorrectionMeans(s: State, days: seq<int>, x: Attributed) returns (a: Attributed)
    requires VersionsShareEventTime(s.lakeRows) && x in Corrections(s, days)
    ensures CurrentOf(s.lakeRows, x.Cid()) == Some(a) && !a.attributed && a.path == Hot
    ensures RecoverRow(a, AllByHousehold(s.lakeExposures), LONG_WINDOW, x.processedAt) == Some(x)
    ensures x.Cid() == a.Cid() && x.res.conv == a.res.conv && x.attributed && x.path == Reconciled
    ensures x.processedAt == ReconciledAtFor(ServedMaxIngest(s))
  {
    hide LakeCandidates, OnDay, PassOver, ServedMaxIngest, RecoverRow, CurrentOf;
    var at := ReconciledAtFor(ServedMaxIngest(s));
    RecoveredByDayIs(days, s.lakeExposures, s.lakeRows, LONG_WINDOW, at, x);
    var d :| d in days && x in PassOver(LakeCandidates(OnDay(s.lakeRows, d)), s.lakeExposures, LONG_WINDOW, at);
    InPass(OnDay(s.lakeRows, d), s.lakeExposures, LONG_WINDOW, at, x);
    a :| a in LakeCandidates(OnDay(s.lakeRows, d)) &&
      RecoverRow(a, AllByHousehold(s.lakeExposures), LONG_WINDOW, at) == Some(x);
    CandidatesOfDay(s.lakeRows, d, a);
    CandidatesAre(s.lakeRows);
    RecoverRowMeans(a, AllByHousehold(s.lakeExposures), LONG_WINDOW, at);
  }

  /** Exactly when a correction takes effect in the lake: its version, which serving gives,
      is not below the hot row's. A hot row that serving has not loaded may be above it. */
  lemma CorrectionIsCurrentIff(s: State, days: seq<int>, x: Attributed)
    requires VersionsShareEventTime(s.lakeRows) && x in Corrections(s, days)
    ensures CurrentOf(s.lakeRows, x.Cid()).Some?
    ensures CurrentOf(s.lakeRows + Corrections(s, days), x.Cid()) == Some(x) <==>
            CurrentOf(s.lakeRows, x.Cid()).value.processedAt <= ReconciledAtFor(ServedMaxIngest(s))
  {
    hide Corrections, ServedMaxIngest, RecoverRow, CurrentOf;
    var a := CorrectionMeans(s, days, x);
    var all := s.lakeRows + Corrections(s, days);
    CurrentIs(s.lakeRows, x.Cid());
    CurrentIs(all, x.Cid());
    assert x in all && a in all;
    assert x.Cid() in CidsOf(all);
    var c := CurrentOf(all, x.Cid()).value;
    if c in Corrections(s, days) {
      var b := CorrectionMeans(s, days, c);
    }
  }

  /** And exactly when it alone is what `FINAL` serves, once both are loaded: `FINAL` has no
      `path` to break a tie, so its version must be above the hot row's. */
  lemma CorrectionIsServedIff(s: State, days: seq<int>, x: Attributed, rows: set<Attributed>)
    requires VersionsShareEventTime(s.lakeRows) && x in Corrections(s, days)
    requires x in rows && forall y :: y in rows ==> y in s.lakeRows || y in Corrections(s, days)
    requires CurrentOf(s.lakeRows, x.Cid()).Some? && CurrentOf(s.lakeRows, x.Cid()).value in rows
    ensures (forall f: Attributed :: f.Cid() == x.Cid() ==> (f in FinalRows(rows) <==> f == x)) <==>
            CurrentOf(s.lakeRows, x.Cid()).value.processedAt < ReconciledAtFor(ServedMaxIngest(s))
  {
    hide Corrections, ServedMaxIngest, RecoverRow, CurrentOf;
    var a := CorrectionMeans(s, days, x);
    CurrentIs(s.lakeRows, x.Cid());
    forall y | y in rows && y.Cid() == x.Cid() ensures y == x || y.processedAt <= a.processedAt {
      if y in Corrections(s, days) { var b := CorrectionMeans(s, days, y); }
    }
    assert a != x;
    if a.processedAt < x.processedAt {
      forall f: Attributed | f.Cid() == x.Cid() ensures f in FinalRows(rows) <==> f == x {}
    } else {
      forall y | y in rows && y.Cid() == x.Cid() ensures y.processedAt <= a.processedAt {}
      assert a.Cid() == x.Cid() && a in FinalRows(rows);
    }
  }

  /** Over the hot pass a correction is a row of the pass if and only if serving holds the
      latest arrival; a pass over less stamps too low. */
  lemma CorrectionIsOfThePassIff(i: Input, s: State, days: seq<int>, x: Attributed)
    requires OfInput(i, s) && LakeHoldsHot(i, s) && x in Corrections(s, days)
    ensures x in ReconRows(i) <==> ServesLatest(s)
  {
    hide HotRows, ReconRows, Corrections, ServedMaxIngest, RecoverRow, CurrentOf, MaxIngest, UniqueExposures, Versioned;
    LakeIsConsistent(i, s.lakeRows);
    LakeMaxIs(i, s);
    var a := CorrectionMeans(s, days, x);
    CurrentIs(s.lakeRows, x.Cid());
    if x in ReconRows(i) {
      var h := Corrects(i, x);
    }
    if ServesLatest(s) {
      if a in ReconRows(i) { var h := Corrects(i, a); }
      SameRecovery(i, s, a, x);
    }
  }

  lemma SameRecovery(i: Input, s: State, a: Attributed, x: Attributed)
    requires OfInput(i, s) && LakeHoldsHot(i, s) && a in HotRows(i) && !a.attributed
    requires RecoverRow(a, AllByHousehold(s.lakeExposures), LONG_WINDOW, ReconciledAt(i)) == Some(x)
    ensures x in ReconRows(i)
  {
    hide HotRows, ReconRows, EligibleTouches, AllByHousehold, FromLake, UniqueExposures, ReconciledAt;
    ReconIs(i);
    RecoverRowSameSet(a, s.lakeExposures, i.exposures, LONG_WINDOW, ReconciledAt(i));
  }

  // ---------- the protocol ----------

  /** Serving holds every exposure and every hot credit; it holds every recovery. */
  ghost predicate HoldsHot(i: Input, s: State) {
    AllExposures(i) <= s.exposures && forall a :: a in HotRows(i) && a.attributed ==> a in s.rows
  }
  ghost predicate HoldsRecon(i: Input, s: State) { ReconSet(i) <= s.rows }

  /** No reconciliation is half landed. */
  ghost predicate AllOrNone(i: Input, rows: seq<Attributed>) {
    (forall x :: x in ReconRows(i) ==> x in rows) || (forall x :: x in ReconRows(i) ==> x !in rows)
  }

  /** The lake holds the hot pass, and all or nothing of a reconciliation, and every day has
      been loaded since it was last landed into. */
  ghost predicate Settled(i: Input, s: State) {
    LakeHoldsHot(i, s) && AllOrNone(i, s.lakeRows) && Fresh(s, Stale({}, {}))
  }

  /** The steps of jobs that run in good order: they land rows of the hot pass, or the
      corrections of a reconciliation that starts when serving holds the latest arrival, and
      refresh only settled warehouses. */
  ghost predicate Allowed(i: Input, s: State, step: Step) {
    match step
    case LandExposures(added) => forall e :: e in added ==> e in i.exposures
    case LandRows(added) =>
      (forall a :: a in added ==> a in HotRows(i)) ||
      (LakeHoldsHot(i, s) && ServesLatest(s) && exists days :: added == Corrections(s, days))
    case Refresh => Settled(i, s)
    case CrashInRefresh(inserted) => Settled(i, s) && inserted <= Recomputed(s)
    case _ => Possible(s, step)
  }

  ghost predicate AllowedRun(i: Input, s: State, steps: seq<Step>)
    decreases |steps|
  {
    steps == [] || (Allowed(i, s, steps[0]) && AllowedRun(i, Next(s, steps[0]), steps[1..]))
  }

  /** A published row is the rebuilt row of the hot pass, or of both passes. */
  ghost predicate PublishedRow(i: Input, s: State, h: Hourly) {
    || h in Rebuild(HotItems(i))
    || (HoldsRecon(i, s) && h in Rebuild(BothItems(i)))
  }

  ghost predicate PipelineInv(i: Input, s: State) {
    && OfInput(i, s)
    && (s.hourly != {} ==> HoldsHot(i, s))
    && (forall h :: h in s.hourly ==> PublishedRow(i, s, h))
  }

  lemma JoinedIs(rows: set<Attributed>, exposures: set<Exposure>, x: Item)
    ensures x in Joined(rows, exposures) <==> x.e in exposures && (x.Credited? ==> x.a in rows && Credits(x.a, x.e))
  {
  }

  lemma HotItemIs(i: Input, x: Item)
    ensures x in HotItems(i) <==> x.e in i.exposures && (x.Credited? ==> x.a in HotRows(i) && Credits(x.a, x.e))
  {
    hide HotRows, Joined;
    JoinedIs(HotSet(i), AllExposures(i), x);
  }

  /** What is aggregated lies between the two passes. */
  lemma ItemsLieBetween(i: Input, s: State)
    requires OfInput(i, s)
    ensures ItemsOf(s) <= BothItems(i)
    ensures HoldsHot(i, s) ==> HotItems(i) <= ItemsOf(s)
    ensures HoldsHot(i, s) && HoldsRecon(i, s) ==> ItemsOf(s) == BothItems(i)
    ensures HoldsHot(i, s) && (forall x :: x in ReconRows(i) ==> x !in s.rows) ==> ItemsOf(s) == HotItems(i)
  {
    hide ItemsOf, HotRows, ReconRows, Joined;
    forall x
      ensures x in ItemsOf(s) <==> x.e in s.exposures && (x.Credited? ==> x.a in s.rows && Credits(x.a, x.e))
      ensures x in HotItems(i) <==> x.e in i.exposures && (x.Credited? ==> x.a in HotRows(i) && Credits(x.a, x.e))
      ensures x in BothItems(i) <==>
              x.e in i.exposures && (x.Credited? ==> (x.a in HotRows(i) || x.a in ReconRows(i)) && Credits(x.a, x.e))
    {
      ItemOfState(s, x);
      JoinedIs(HotSet(i), AllExposures(i), x);
      JoinedIs(HotSet(i) + ReconSet(i), AllExposures(i), x);
    }
    forall x | HoldsHot(i, s) && HoldsRecon(i, s) ensures x in BothItems(i) ==> x in ItemsOf(s) {}
  }

  /** With everything landed loaded, serving holds the hot credits, and all or no recoveries. */
  lemma SettledHolds(i: Input, s: State)
    requires OfInput(i, s) && Settled(i, s)
    ensures HoldsHot(i, s)
    ensures HoldsRecon(i, s) || forall x :: x in ReconRows(i) ==> x !in s.rows
  {
    hide HotRows, ReconRows, ItemsOf, PublishedRow, CurrentOf;
    forall a | a in s.lakeRows && a.attributed ensures a in s.rows {
      CreditIsFinal(i, s.lakeRows, a);
    }
    forall x | x in ReconRows(i) ensures x.attributed { var h := Corrects(i, x); }
  }

  // ---------- the stamp hypothesis, discharged ----------

  /** A row rebuilt from the hot pass alone that is as new as its key still says all there
      is to say: any recovery would have raised the stamp. */
  lemma AsNewIsAll(i: Input, items: set<Item>, k: Key)
    requires HotItems(i) <= items <= BothItems(i)
    requires ItemsAt(HotItems(i), k) != {}
    ensures ItemsAt(items, k) != {} && MaxStamp(ItemsAt(HotItems(i), k)) <= MaxStamp(ItemsAt(items, k))
    ensures MaxStamp(ItemsAt(HotItems(i), k)) == MaxStamp(ItemsAt(items, k)) ==>
        ItemsAt(items, k) == ItemsAt(HotItems(i), k)
    ensures ItemsAt(items, k) != ItemsAt(HotItems(i), k) ==> MaxStamp(ItemsAt(items, k)) == ReconciledAt(i)
  {
    hide HotItems, BothItems, MaxStamp, ReconciledAt;
    var before, after := ItemsAt(HotItems(i), k), ItemsAt(items, k);
    SmallerGroup(HotItems(i), items, k);
    MaxStampIs(before);
    MaxStampIs(after);
    assert before <= after;
    forall x, y | x in after && x !in before && y in before
      ensures y.Stamp() < x.Stamp() && x.Stamp() == ReconciledAt(i)
    {
      ReconIsNewest(i, y, x);
    }
    if after != before {
      var x :| x in after && x !in before;
      var y :| y in before && y.Stamp() == MaxStamp(before);
      assert y.Stamp() < x.Stamp();
    }
  }

  /** In the pipeline's protocol every load that changes a published key raises its stamp. */
  lemma LoadsRaiseStamps(i: Input, s: State, t: State)
    requires PipelineInv(i, s) && PipelineInv(i, t)
    requires s.exposures <= t.exposures && s.rows <= t.rows
    ensures StampsRise(s, t)
  {
    hide Items, ItemsOf, HotItems, BothItems, MaxStamp, RowOf, RowAt, HotRows, ReconRows, ReconciledAt, Joined,
         FromLake, Rebuild;
    forall k | Published(s, k) && RowAt(t, k) != RowAt(s, k)
      ensures RowAt(s, k).Some? && RowAt(t, k).Some?
      ensures RowAt(s, k).value.reportedAt < RowAt(t, k).value.reportedAt
    {
      ItemsLieBetween(i, s);
      ItemsLieBetween(i, t);
      RowAtIs(s, k);
      RowAtIs(t, k);
      var h :| h in s.hourly && h.key == k && h.reportedAt == MaxStamp(ItemsAt(ItemsOf(s), k));
      RebuildIs(HotItems(i), h);
      assert !HoldsRecon(i, s);
      var hot := ItemsAt(HotItems(i), k);
      RowKey(k, hot);
      AsNewIsAll(i, ItemsOf(s), k);
      AsNewIsAll(i, ItemsOf(t), k);
    }
  }

  lemma RecoveredIsNotHot(i: Input, x: Attributed)
    requires x in ReconRows(i)
    ensures x !in HotRows(i)
  {
    hide HotRows, ReconRows;
    HotIs(i);
    var h := Corrects(i, x);
  }

  /** Landing what the state itself recovers keeps the lake to the two passes. */
  lemma AllowedRows(i: Input, s: State, added: seq<Attributed>)
    requires OfInput(i, s) && Allowed(i, s, LandRows(added))
    ensures FromTheTwoPasses(i, added)
  {
    hide HotRows, ReconRows, Corrections, ServesLatest, UniqueExposures, FromLake;
    if !(forall a :: a in added ==> a in HotRows(i)) {
      var days :| added == Corrections(s, days);
      forall x | x in added ensures x in ReconRows(i) { CorrectionIsOfThePassIff(i, s, days, x); }
    }
  }

  /** Over a loaded hot pass, whatever partitions are reconciled may be landed. */
  lemma CorrectionsAllowed(i: Input, s: State, days: seq<int>)
    requires OfInput(i, s) && LakeHoldsHot(i, s) && Fresh(s, Stale({}, {}))
    ensures Allowed(i, s, LandRows(Corrections(s, days)))
  {
    hide HotRows, ReconRows, Corrections, ServesLatest, UniqueExposures, FromLake, Fresh;
    LoadedServesLatest(i, s);
  }

  lemma AllowedIsPossible(i: Input, s: State, step: Step)
    requires OfInput(i, s) && Allowed(i, s, step)
    ensures Possible(s, step)
    ensures forall e :: e in Next(s, step).lakeExposures ==> e in i.exposures
    ensures FromTheTwoPasses(i, Next(s, step).lakeRows)
  {
    hide HotRows, ReconRows, PublishedRow, Recomputed, Recorded, Corrections, ServesLatest;
    match step
    case LandExposures(added) =>
      assert forall e :: e in s.lakeExposures + added ==> e in i.exposures;
    case LandRows(added) =>
      AllowedRows(i, s, added);
      TwoPassesAreVersioned(i, s.lakeRows + added);
    case _ =>
  }

  lemma AllowedKeepsLake(i: Input, s: State, step: Step)
    requires OfInput(i, s) && Allowed(i, s, step)
    ensures Possible(s, step) && OfInput(i, Next(s, step))
  {
    hide HotRows, ReconRows, Recomputed, Recorded, FromLake, Possible, FromTheTwoPasses, DayRows, Corrections,
         ServesLatest, Settled;
    AllowedIsPossible(i, s, step);
    StepKeepsLake(s, step);
  }

  lemma AllowedKeepsInv(i: Input, s: State, step: Step)
    requires PipelineInv(i, s) && Allowed(i, s, step)
    ensures PipelineInv(i, Next(s, step))
  {
    hide HotRows, ReconRows, PublishedRow, Recomputed, Recorded, FromLake, Possible, Fresh, FromTheTwoPasses,
         DayRows, AllOrNone, Corrections, ServesLatest;
    var t := Next(s, step);
    AllowedIsPossible(i, s, step);
    StepKeepsLake(s, step);
    if step.Refresh? || step.CrashInRefresh? {
      SettledHolds(i, s);
      forall h | h in t.hourly ensures PublishedRow(i, t, h) {
        if h in Recomputed(s) { RefreshedRowIsPublished(i, s, t, h); } else { StillPublished(i, s, t, h); }
      }
    } else {
      forall h | h in t.hourly ensures PublishedRow(i, t, h) { StillPublished(i, s, t, h); }
    }
  }

  lemma StillPublished(i: Input, s: State, t: State, h: Hourly)
    requires PublishedRow(i, s, h) && s.rows <= t.rows
    ensures PublishedRow(i, t, h)
  {
    hide HotItems, BothItems;
  }

  lemma RefreshedRowIsPublished(i: Input, s: State, t: State, h: Hourly)
    requires PipelineInv(i, s) && HoldsHot(i, s) && t.rows == s.rows && h in Recomputed(s)
    requires HoldsRecon(i, s) || forall x :: x in ReconRows(i) ==> x !in s.rows
    ensures PublishedRow(i, t, h)
  {
    hide HotItems, BothItems, ItemsOf, Recomputed, HotRows, ReconRows, FromLake, RowAt;
    ItemsLieBetween(i, s);
    RecomputedIs(s, h);
    RowAtIs(s, h.key);
    RebuildIs(ItemsOf(s), h);
  }

  lemma {:induction false} ProtocolRunRises(i: Input, s: State, steps: seq<Step>)
    requires PipelineInv(i, s) && AllowedRun(i, s, steps)
    ensures PossibleRun(s, steps) && RisingRun(s, steps) && PipelineInv(i, RunOf(s, steps))
    decreases |steps|
  {
    hide PipelineInv, Allowed, Possible, Next, StampsRise;
    if steps != [] {
      var t := Next(s, steps[0]);
      AllowedKeepsInv(i, s, steps[0]);
      OneLoadRises(i, s, steps[0]);
      ProtocolRunRises(i, t, steps[1..]);
    }
  }

  lemma OneLoadRises(i: Input, s: State, step: Step)
    requires PipelineInv(i, s) && Allowed(i, s, step)
    ensures Possible(s, step)
    ensures IsLoad(step) ==> StampsRise(s, Next(s, step))
  {
    hide HotRows, ReconRows, PublishedRow, Recomputed, Recorded, Possible, Next, StampsRise, FromTheTwoPasses,
         AllOrNone, Corrections, ServesLatest;
    AllowedIsPossible(i, s, step);
    AllowedKeepsInv(i, s, step);
    StepKeepsLake(s, step);
    if IsLoad(step) { LoadsRaiseStamps(i, s, Next(s, step)); }
  }

  /** Start from an empty warehouse and take any allowed steps, in any order and number:
      landings, loads, refreshes, crashes within them, compactions, truncations. When nothing
      landed is left to load and no load is left unfinished, a refresh serves exactly what a
      rebuild from the lake computes. */
  lemma PipelineRollupIsExact(i: Input, steps: seq<Step>)
    requires UniqueExposures(i.exposures)
    requires AllowedRun(i, State([], [], {}, {}, {}, {}, {}), steps)
    requires OpenOf(Open({}, {}), steps) == Open({}, {})
    requires Settled(i, RunOf(State([], [], {}, {}, {}, {}, {}), steps))
    ensures var s := RunOf(State([], [], {}, {}, {}, {}, {}), steps);
      FinalHourly(Next(s, Refresh).hourly) == Rebuild(LakeItems(s))
  {
    hide AllowedRun, PossibleRun, RisingRun, RunOf, OpenOf, HotRows, ReconRows, Inv, Next, Rebuild, Items,
         LakeItems;
    var empty := State([], [], {}, {}, {}, {}, {});
    var s := RunOf(empty, steps);
    ProtocolRunRises(i, empty, steps);
    UnloadedInv(empty);
    RunKeepsInv(empty, steps, Open({}, {}));
    RefreshIsExact(s);
    NothingStale(s);
    RefreshKeepsItems(s);
  }

  // ---------- where the hypothesis fails ----------

  lemma {:induction false} GroupSize(group: set<Item>)
    ensures Sum(group, Rollup.Exposures) + Sum(group, Conversions) == |group|
    decreases |group|
  {
    if group != {} {
      var x := Member(group);
      SumOf(group, x, Rollup.Exposures);
      SumOf(group, x, Conversions);
      GroupSize(group - {x});
    }
  }

  /** A row that a rebuild adds to a published key without raising its stamp is lost: the
      next refresh does not recompute the key. */
  lemma LowStampIsLost(s: State, t: State, x: Item)
    requires Inv(s, Open({}, {})) && DirtyNow(s) == {}
    requires Recording(t, Open({}, {})) && s.exposures <= t.exposures && s.rows <= t.rows
    requires s.dirty <= t.dirty && t.refreshed == s.refreshed && t.hourly == s.hourly
    requires x in ItemsOf(t) && x !in ItemsOf(s) && RowAt(s, x.Key()).Some?
    requires forall y :: y in ItemsOf(t) && y.Key() == x.Key() ==> y.Stamp() <= RowAt(s, x.Key()).value.reportedAt
    ensures !Exact(Next(t, Refresh))
  {
    hide ItemsOf, RowAt, RowOf, Backed, Covered, FromLake, MaxStamp, Next, Sum, Exact;
    var k := x.Key();
    var before, after := ItemsAt(ItemsOf(s), k), ItemsAt(ItemsOf(t), k);
    RefreshExactIff(s, t);
    RowAtIs(s, k);
    RowAtIs(t, k);
    ItemsGrow(s, t);
    assert x in after && x !in before && before <= after;
    MaxStampIs(after);
    assert RowAt(t, k) != RowAt(s, k) by { RowsCount(k, before, after, x); }
    assert Published(s, k) by { CleanIsPublished(s, k); }
  }

  lemma RowsCount(k: Key, before: set<Item>, after: set<Item>, x: Item)
    requires before != {} && before <= after && x in after && x !in before
    ensures RowOf(k, before) != RowOf(k, after)
  {
    hide Sum, MaxStamp;
    GroupSize(before);
    GroupSize(after);
    Smaller(before, after - {x});
  }

  lemma {:induction false} Smaller(a: set<Item>, b: set<Item>)
    requires a <= b
    ensures |a| <= |b|
    decreases |a|
  {
    if a != {} {
      var x := Member(a);
      Smaller(a - {x}, b - {x});
    }
  }

  lemma CleanIsPublished(s: State, k: Key)
    requires Inv(s, Open({}, {})) && DirtyNow(s) == {} && RowAt(s, k).Some?
    ensures Published(s, k)
  {
    hide ItemsOf, RowAt, RowOf, Backed, Covered, FromLake, MaxStamp, DirtyKeys;
    RowAtIs(s, k);
    DirtyIsLatest(s, k);
    DirtyKeysAre(s.dirty, s.refreshed);
    var d := Stamp(k, RowAt(s, k).value.reportedAt);
    assert d in FinalStamps(s.dirty) && d !in DirtyNow(s);
    assert d in s.refreshed;
    var h :| h in s.hourly && h.key == k && d.version <= h.reportedAt;
    assert HonestRow(s, h);
  }

  /** Reconciling one day partition at a time stamps every partition alike, so a second
      partition that credits an hour which the first has already moved is lost. */
  lemma SecondPartitionIsLost(i: Input, s: State, t: State, x: Item, y: Item)
    requires Inv(s, Open({}, {})) && DirtyNow(s) == {}
    requires Recording(t, Open({}, {})) && s.exposures <= t.exposures && s.rows <= t.rows
    requires s.dirty <= t.dirty && t.refreshed == s.refreshed && t.hourly == s.hourly
    requires ItemsOf(t) <= BothItems(i) && x.Key() == y.Key()
    requires x in ItemsOf(s) && x.Credited? && x.a in ReconRows(i)
    requires y in ItemsOf(t) && y.Credited? && y.a in ReconRows(i) && y !in ItemsOf(s)
    ensures !Exact(Next(t, Refresh))
  {
    hide ItemsOf, RowAt, RowOf, Backed, Covered, FromLake, MaxStamp, Next, BothItems, ReconRows, Inv, Recording,
         Exact;
    var k := x.Key();
    RowAtIs(s, k);
    assert x in ItemsAt(ItemsOf(s), k);
    MaxStampIs(ItemsAt(ItemsOf(s), k));
    var h := Corrects(i, x.a);
    forall z | z in ItemsOf(t) ensures z.Stamp() <= ReconciledAt(i) { NothingIsNewer(i, z); }
    LowStampIsLost(s, t, y);
  }

  lemma NothingIsNewer(i: Input, z: Item)
    requires z in BothItems(i)
    ensures z.Stamp() <= ReconciledAt(i)
  {
    hide HotRows, ReconRows, LatestIngest, LatestRowIngest;
    HotIs(i);
    LatestIngestIs(i.exposures);
    LatestRowIngestIs(HotRows(i));
    if z.Credited? && z.a in ReconRows(i) { var h := Corrects(i, z.a); }
  }

  // ---------- inputs on which it fails ----------

  /** The loads of one `materialize_load` of a single day. */
  function DayLoads(day: int): seq<Step> { [LoadExposures(day), LoadRows(day)] }

  lemma NothingPublished(s: State, t: State)
    requires s.hourly == {}
    ensures StampsRise(s, t)
  {
  }

  lemma {:induction false} FirstLoadsRise(s: State, loads: seq<Step>)
    requires OnlyLoads(loads) && s.hourly == {}
    ensures RisingRun(s, loads)
    decreases |loads|
  {
    hide StampsRise;
    if loads != [] {
      var t := Next(s, loads[0]);
      assert loads[0] in loads && forall x :: x in loads[1..] ==> x in loads;
      NothingPublished(s, t);
      FirstLoadsRise(t, loads[1..]);
    }
  }

  /** The first job over an empty warehouse leaves it clean and consistent. */
  lemma FirstJob(s: State, loads: seq<Step>)
    requires Unloaded(s) && OnlyLoads(loads)
    ensures Inv(Next(RunOf(s, loads), Refresh), Open({}, {})) && DirtyNow(Next(RunOf(s, loads), Refresh)) == {}
  {
    hide OnlyLoads, Next, RunOf, OpenOf, PossibleRun, RisingRun, Inv, DirtyNow;
    UnloadedInv(s);
    FirstLoadsRise(s, loads);
    LoadsPossible(s, loads, Open({}, {}));
    RunKeepsInv(s, loads, Open({}, {}));
    StepKeepsInv(RunOf(s, loads), Refresh, Open({}, {}));
    JobCleans(RunOf(s, loads));
  }

  lemma JobCleans(s: State)
    requires Inv(s, Open({}, {}))
    ensures DirtyNow(Next(s, Refresh)) == {}
  {
    hide Next, DirtyNow, FromLake, Backed, Covered, Honest, Stamped;
    RefreshCleans(s);
  }

  /** Two one-day jobs: the day of an exposure, then the day of a conversion credited to it. */
  ghost function AfterFirstDay(e: Exposure, y: Attributed): State {
    Next(RunOf(State([e], [y], {}, {}, {}, {}, {}), DayLoads(EventDay(e))), Refresh)
  }
  ghost function SecondDayLoaded(e: Exposure, y: Attributed): State { RunOf(AfterFirstDay(e, y), DayLoads(y.Day())) }

  lemma TwoDays(e: Exposure, y: Attributed)
    requires Credits(y, e)
    ensures var t, u := AfterFirstDay(e, y), SecondDayLoaded(e, y);
      && Inv(t, Open({}, {})) && DirtyNow(t) == {} && Recording(u, Open({}, {}))
      && t.exposures <= u.exposures && t.rows <= u.rows
      && t.dirty <= u.dirty && u.refreshed == t.refreshed && u.hourly == t.hourly
    ensures forall x :: x in AfterFirstDay(e, y).exposures <==> x == e
    ensures forall a :: a in AfterFirstDay(e, y).rows <==> a == y && y.Day() == EventDay(e)
    ensures forall x :: x in SecondDayLoaded(e, y).exposures <==> x == e
    ensures forall a :: a in SecondDayLoaded(e, y).rows <==> a == y
  {
    hide RunOf, Inv, Exact, Recorded, DirtyNow, Recording, DirtyKeys, Recomputed, CurrentOf, RowAt, Next;
    var s0 := State([e], [y], {}, {}, {}, {}, {});
    var s := RunOf(s0, DayLoads(EventDay(e)));
    var t := Next(s, Refresh);
    var u := RunOf(t, DayLoads(y.Day()));
    FirstJob(s0, DayLoads(EventDay(e)));
    InvParts(t);
    RefreshFrame(s);
    LoadedBy(s0, DayLoads(EventDay(e)));
    LoadedBy(t, DayLoads(y.Day()));
    LoadsPossible(t, DayLoads(y.Day()), Open({}, {}));
    RunKeepsRecording(t, DayLoads(y.Day()), Open({}, {}));
    assert CurrentOf([y], y.Cid()) == Some(y) by { OnlyRowIsCurrent(y); }
    forall a | a in [y] ensures CurrentOf([y], a.Cid()) == Some(a) {}
    forall a: Attributed | CurrentOf([y], a.Cid()) == Some(a) ensures a == y { CurrentIs([y], a.Cid()); }
  }

  lemma TwoDaysItems(e: Exposure, y: Attributed)
    requires Credits(y, e)
    ensures forall z :: z in ItemsOf(AfterFirstDay(e, y)) <==>
              z == Aired(e) || (z == Credited(y, e) && y.Day() == EventDay(e))
    ensures forall z :: z in ItemsOf(SecondDayLoaded(e, y)) <==> z == Aired(e) || z == Credited(y, e)
  {
    hide AfterFirstDay, SecondDayLoaded, ItemsOf, Backed, Covered, Stamped, Honest, DirtyNow;
    var t, u := AfterFirstDay(e, y), SecondDayLoaded(e, y);
    TwoDays(e, y);
    forall z
      ensures z in ItemsOf(t) <==> z.e in t.exposures && (z.Credited? ==> z.a in t.rows && Credits(z.a, z.e))
      ensures z in ItemsOf(u) <==> z.e in u.exposures && (z.Credited? ==> z.a in u.rows && Credits(z.a, z.e))
    {
      ItemOfState(t, z);
      ItemOfState(u, z);
    }
  }

  /** Exactly when the second refresh is right: the two days are one, or the credit is
      stamped later than the exposure that the first refresh published. */
  lemma PartialLoadExactIff(e: Exposure, y: Attributed)
    requires Credits(y, e)
    ensures Exact(Next(SecondDayLoaded(e, y), Refresh)) <==> y.Day() == EventDay(e) || e.ingestTime < y.processedAt
  {
    hide AfterFirstDay, SecondDayLoaded, ItemsOf, Inv, Exact, DirtyNow, Recording, RowAt, RowOf, MaxStamp, Next;
    var t, u, k := AfterFirstDay(e, y), SecondDayLoaded(e, y), KeyOf(e);
    TwoDays(e, y);
    TwoDaysItems(e, y);
    RefreshExactIff(t, u);
    LatestIsAtLeast(t, Aired(e));
    LatestIsAtLeast(u, Aired(e));
    LatestIsAtLeast(u, Credited(y, e));
    if y.Day() == EventDay(e) {
      assert ItemsOf(t) == ItemsOf(u);
      forall h { SameRowAt(t, u, h); }
    } else {
      LatestIsOne(t, Aired(e));
      if e.ingestTime < y.processedAt {
        forall h | h != k ensures RowAt(u, h) == RowAt(t, h) { OtherKeysStay(t, u, Credited(y, e), h); }
      } else {
        LowStampIsLost(t, u, Credited(y, e));
      }
    }
  }

  /** The latest stamp of a key with one row is that row's. */
  lemma LatestIsOne(s: State, i: Item)
    requires forall z :: z in ItemsOf(s) <==> z == i
    ensures RowAt(s, i.Key()).Some? && RowAt(s, i.Key()).value.reportedAt == i.Stamp()
  {
    hide ItemsOf, MaxStamp, RowOf, RowAt;
    assert i in ItemsAt(ItemsOf(s), i.Key());
    MaxStampIs(ItemsAt(ItemsOf(s), i.Key()));
    RowAtIs(s, i.Key());
  }

  lemma OtherKeysStay(s: State, t: State, x: Item, k: Key)
    requires forall z :: z in ItemsOf(t) <==> z in ItemsOf(s) || z == x
    requires k != x.Key()
    ensures RowAt(t, k) == RowAt(s, k)
  {
    hide ItemsOf, RowOf;
    assert ItemsAt(ItemsOf(s), k) == ItemsAt(ItemsOf(t), k);
  }

  lemma OnlyRowIsCurrent(y: Attributed)
    ensures CurrentOf([y], y.Cid()) == Some(y)
  {
    assert Init([y]) == [] && Last([y]) == y;
    assert CurrentOf([], y.Cid()) == None;
  }

  lemma LatestIsAtLeast(s: State, i: Item)
    requires i in ItemsOf(s)
    ensures RowAt(s, i.Key()).Some? && i.Stamp() <= RowAt(s, i.Key()).value.reportedAt
  {
    hide ItemsOf, MaxStamp, RowOf, RowAt;
    assert i in ItemsAt(ItemsOf(s), i.Key());
    MaxStampIs(ItemsAt(ItemsOf(s), i.Key()));
    RowAtIs(s, i.Key());
  }

  lemma InvParts(s: State)
    requires Inv(s, Open({}, {}))
    ensures Recording(s, Open({}, {})) && FromLake(s)
  {
  }

  lemma RefreshFrame(s: State)
    ensures var t := Next(s, Refresh);
      t.lakeExposures == s.lakeExposures && t.lakeRows == s.lakeRows && t.exposures == s.exposures && t.rows == s.rows
  {
  }

  /** A pair on which it is not: an exposure of 23:00 that arrives at 02:00, and a site visit
      of 01:00 on the next day that arrives in a minute and is credited to it. */
  lemma PartialLoadExample()
    ensures var e := Exposure(1, 23 * HOUR_MS, 26 * HOUR_MS, 7, 100, 0, 0, 0, 500);
      var c := Conversion(1, 25 * HOUR_MS, 25 * HOUR_MS + 60_000, 0, 0, SiteVisit, 0, None);
      var y := HotRow(Resolved(c, 100, ByDevice, false, 1), Some(1), [], true, []);
      && CandidateSetMatchesCount(y) && Eligible(e, y.res, HOT_WINDOW)
      && !Exact(Next(SecondDayLoaded(e, y), Refresh))
  {
    hide AfterFirstDay, SecondDayLoaded, Exact, Next;
    var e := Exposure(1, 23 * HOUR_MS, 26 * HOUR_MS, 7, 100, 0, 0, 0, 500);
    var c := Conversion(1, 25 * HOUR_MS, 25 * HOUR_MS + 60_000, 0, 0, SiteVisit, 0, None);
    var y := HotRow(Resolved(c, 100, ByDevice, false, 1), Some(1), [], true, []);
    assert EventDay(e) == 0 && y.Day() == 1;
    PartialLoadExactIff(e, y);
  }
}
