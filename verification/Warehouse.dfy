/** The lake and the serving tables as the code updates them, statement by statement
    (lake/load_serving.py, lake/maintenance.py, reconcile/rollup.py, orchestration/run.py,
    orchestration/replay.py): every method is proved against the steps of the state machine. */
module Warehouse {
  import opened Rows
  import opened Orders
  import opened Collapse
  import opened Dataflow
  import opened Resolve
  import opened Lake
  import opened Recover
  import opened Protocol
  import opened Rollup
  import opened Serving
  import opened Pipeline
  import opened Restatement

  const BATCH: nat := 256

  datatype LoadResult =
    | Loaded(exposures: nat, attributed: nat, rollupKeys: Option<nat>)
    | UnknownPartition(days: seq<int>)
    | EmptyLake

  datatype JobResult =
    | Done(candidates: nat, recovered: nat)
    | Raised
    | NotLoaded(days: seq<int>)

  datatype EngineResult =
    | Ran(landed: nat, rows: nat, resolved: nat, suppressed: nat)
    | RunRaised
    | RunNotLoaded(days: seq<int>)

  function SetOf<T>(s: seq<T>): set<T> { set x | x in s }

  /** The loads of `materialize_load`, day by day. */
  function LoadSteps(days: seq<int>): seq<Step> {
    if days == [] then [] else LoadSteps(Init(days)) + [LoadExposures(Last(days)), LoadRows(Last(days))]
  }

  function ExposuresRead(exposures: seq<Exposure>, days: seq<int>): nat {
    if days == [] then 0 else ExposuresRead(exposures, Init(days)) + |DayQuery(exposures, Last(days))|
  }

  function RowsRead(rows: seq<Attributed>, days: seq<int>): nat {
    if days == [] then 0 else RowsRead(rows, Init(days)) + |ReadCurrent(OnDay(rows, Last(days)))|
  }

  /** A finished `materialize_load`. */
  ghost function LoadJob(s: State, days: set<int>): State {
    if days == {} then s else Next(RunOf(s, LoadSteps(SortedIds(days))), Refresh)
  }

  /** What the two topics hold, once the conversions are resolved. */
  function Drained(exposures: seq<Exposure>, conversions: seq<Conversion>, index: GraphIndex, lateness: Time): Input {
    Input(exposures, ResolveAll(conversions, index), lateness)
  }

  /** What the engine runs on. */
  function EngineInput(raw: Input, dedup: bool): Input {
    if dedup then Input(DedupedExposures(raw.exposures), DedupedResolved(raw.resolved), raw.lateness) else raw
  }

  /** What the engine lands and loads. */
  ghost function EngineJob(s: State, i: Input): State {
    LoadJob(Next(Next(s, Step.LandExposures(i.exposures)), LandRows(HotRows(i))),
      DaysAired(i.exposures) + DaysOf(HotRows(i)))
  }

  ghost function ReconcileJob(s: State, days: seq<int>): State {
    LoadJob(Next(s, LandRows(Corrections(s, days))), DaysOf(Corrections(s, days)))
  }

  /** The reports that end a reconciliation. */
  ghost function BothReports(s: State): set<Report> { Snapshot(s, 0, true) + Snapshot(s, RECONCILE_DELTA_MS, false) }

  /** There is a report for every campaign that has an exposure. */
  ghost predicate HoldsReports(reports: set<Report>, s: State, offset: Time, hotOnly: bool) {
    forall e :: e in s.exposures ==>
      exists r :: r in reports && r.campaign == e.campaignId && IsReport(r, s, offset, hotOnly)
  }

  ghost predicate AreReports(reports: set<Report>, s: State, offset: Time, hotOnly: bool) {
    forall r :: r in reports ==> IsReport(r, s, offset, hotOnly)
  }

  lemma WroteSnapshot(s: State, offset: Time, hotOnly: bool, before: set<Report>, now: set<Report>)
    requires now == before + Snapshot(s, offset, hotOnly)
    ensures HoldsReports(now, s, offset, hotOnly) && AreReports(now - before, s, offset, hotOnly)
  {
    hide IsReport, Snapshot;
    forall e | e in s.exposures
      ensures exists r :: r in now && r.campaign == e.campaignId && IsReport(r, s, offset, hotOnly)
    {
      var r := ReportedIn(s, offset, hotOnly, e);
    }
    forall r | r in now - before ensures IsReport(r, s, offset, hotOnly) { IsReported(s, offset, hotOnly, r); }
  }

  lemma ReportedIn(s: State, offset: Time, hotOnly: bool, e: Exposure) returns (r: Report)
    requires e in s.exposures
    ensures r in Snapshot(s, offset, hotOnly) && r.campaign == e.campaignId && IsReport(r, s, offset, hotOnly)
  {
    hide IsReport, Snapshot;
    SnapshotMeaning(s, offset, hotOnly);
    r :| r in Snapshot(s, offset, hotOnly) && r.campaign == e.campaignId;
  }

  lemma IsReported(s: State, offset: Time, hotOnly: bool, r: Report)
    requires r in Snapshot(s, offset, hotOnly)
    ensures IsReport(r, s, offset, hotOnly)
  {
    hide IsReport, Snapshot;
    SnapshotMeaning(s, offset, hotOnly);
  }

  /** At the latest arrival the report as of the hot pass, hot credits only, and one second later
      the report of both passes. */
  ghost predicate HoldsBothReports(reports: set<Report>, s: State) {
    HoldsReports(reports, s, 0, true) && HoldsReports(reports, s, 1000, false)
  }

  ghost predicate AreOfBoth(reports: set<Report>, s: State) {
    forall r :: r in reports ==> IsReport(r, s, 0, true) || IsReport(r, s, 1000, false)
  }

  lemma BothReportsMean(s: State)
    ensures HoldsBothReports(BothReports(s), s) && AreOfBoth(BothReports(s), s)
  {
    hide IsReport, Snapshot, HoldsReports;
    var pre, post := Snapshot(s, 0, true), Snapshot(s, 1000, false);
    WroteSnapshot(s, 0, true, {}, pre);
    WroteSnapshot(s, 1000, false, {}, post);
    MoreReports(pre, BothReports(s), s, 0, true);
    MoreReports(post, BothReports(s), s, 1000, false);
    forall r | r in BothReports(s) ensures IsReport(r, s, 0, true) || IsReport(r, s, 1000, false) {
      assert r in pre - {} || r in post - {};
    }
  }

  lemma MoreReports(some: set<Report>, reports: set<Report>, s: State, offset: Time, hotOnly: bool)
    requires HoldsReports(some, s, offset, hotOnly) && some <= reports
    ensures HoldsReports(reports, s, offset, hotOnly)
  {
    hide IsReport;
  }

  ghost predicate DayRaises(s: State, day: int) { PassRaises(LakeCandidates(OnDay(s.lakeRows, day))) }

  function CandidatesOn(rows: seq<Attributed>, days: seq<int>): nat {
    if days == [] then 0 else CandidatesOn(rows, Init(days)) + |LakeCandidates(OnDay(rows, Last(days)))|
  }

  lemma {:induction false} RunAppend(s: State, x: seq<Step>, y: seq<Step>)
    ensures RunOf(s, x + y) == RunOf(RunOf(s, x), y)
    decreases |x|
  {
    hide Next;
    if x == [] {
      assert x + y == y;
    } else {
      assert (x + y)[0] == x[0] && (x + y)[1..] == x[1..] + y;
      RunAppend(Next(s, x[0]), x[1..], y);
    }
  }

  ghost function AiredOnDays(exposures: seq<Exposure>, days: seq<int>): set<Exposure> {
    set e | e in exposures && DayOf(e.eventTime) in days
  }

  /** What the totals of a load and of a pass count. */
  lemma {:induction false} ExposuresReadIs(exposures: seq<Exposure>, days: seq<int>)
    requires Distinct(days)
    ensures ExposuresRead(exposures, days) == |AiredOnDays(exposures, days)|
  {
    hide DayQuery, AiredOnDays;
    if days == [] {
      assert AiredOnDays(exposures, days) == {} by { NothingAired(exposures); }
    } else {
      ExposuresReadIs(exposures, Init(days));
      assert days == Init(days) + [Last(days)];
      OneMoreDayQuery(exposures, Init(days), Last(days));
    }
  }

  lemma NothingAired(exposures: seq<Exposure>)
    ensures AiredOnDays(exposures, []) == {}
  {
  }

  lemma OneMoreDayQuery(exposures: seq<Exposure>, days: seq<int>, day: int)
    requires day !in days
    ensures |AiredOnDays(exposures, days + [day])| == |AiredOnDays(exposures, days)| + |DayQuery(exposures, day)|
  {
    hide DayQuery;
    var before, own := AiredOnDays(exposures, days), set e | e in DayQuery(exposures, day);
    DayQueryIs(exposures, day);
    DistinctCount(DayQuery(exposures, day));
    assert AiredOnDays(exposures, days + [day]) == before + own && before !! own;
  }

  ghost function CurrentOnDays(rows: seq<Attributed>, days: seq<int>): set<Attributed> {
    set a | a in rows && CurrentOf(rows, a.res.conv.conversionId) == Some(a) && DayOf(a.res.conv.eventTime) in days
  }

  lemma {:induction false} RowsReadIs(rows: seq<Attributed>, days: seq<int>)
    requires Distinct(days) && VersionsShareEventTime(rows)
    ensures RowsRead(rows, days) == |CurrentOnDays(rows, days)|
  {
    hide ReadCurrent, OnDay, CurrentOnDays, VersionsShareEventTime;
    if days == [] {
      assert CurrentOnDays(rows, days) == {} by { NothingCurrent(rows); }
    } else {
      RowsReadIs(rows, Init(days));
      assert days == Init(days) + [Last(days)];
      OneMoreDayRead(rows, Init(days), Last(days));
    }
  }

  lemma NothingCurrent(rows: seq<Attributed>)
    ensures CurrentOnDays(rows, []) == {}
  {
  }

  lemma OneMoreDayRead(rows: seq<Attributed>, days: seq<int>, day: int)
    requires day !in days && VersionsShareEventTime(rows)
    ensures |CurrentOnDays(rows, days + [day])| == |CurrentOnDays(rows, days)| + |ReadCurrent(OnDay(rows, day))|
  {
    hide ReadCurrent, OnDay, CurrentOf, VersionsShareEventTime;
    var before, own := CurrentOnDays(rows, days), set a | a in ReadCurrent(OnDay(rows, day));
    ReadOnceEach(OnDay(rows, day));
    DistinctCount(ReadCurrent(OnDay(rows, day)));
    ReadCurrentIs(rows);
    forall a ensures a in own <==>
        a in rows && CurrentOf(rows, a.res.conv.conversionId) == Some(a) && DayOf(a.res.conv.eventTime) == day
    {
      DayPruneIsInvariant(rows, day, a);
    }
    assert CurrentOnDays(rows, days + [day]) == before + own && before !! own;
  }

  lemma ReadOnceEach(rows: seq<Attributed>)
    ensures Distinct(ReadCurrent(rows))
  {
    hide ReadCurrent;
    ReadCurrentIs(rows);
  }

  ghost function CandidatesOnDays(rows: seq<Attributed>, days: seq<int>): set<Attributed> {
    set a | a in LakeCandidates(rows) && DayOf(a.res.conv.eventTime) in days
  }

  lemma {:induction false} CandidatesOnIs(rows: seq<Attributed>, days: seq<int>)
    requires Distinct(days) && VersionsShareEventTime(rows)
    ensures CandidatesOn(rows, days) == |CandidatesOnDays(rows, days)|
  {
    hide LakeCandidates, OnDay, CandidatesOnDays, VersionsShareEventTime;
    if days == [] {
      assert CandidatesOnDays(rows, days) == {} by { NoCandidates(rows); }
    } else {
      CandidatesOnIs(rows, Init(days));
      assert days == Init(days) + [Last(days)];
      OneMoreDayOfCandidates(rows, Init(days), Last(days));
    }
  }

  lemma NoCandidates(rows: seq<Attributed>)
    ensures CandidatesOnDays(rows, []) == {}
  {
  }

  lemma OneMoreDayOfCandidates(rows: seq<Attributed>, days: seq<int>, day: int)
    requires day !in days && VersionsShareEventTime(rows)
    ensures |CandidatesOnDays(rows, days + [day])| ==
            |CandidatesOnDays(rows, days)| + |LakeCandidates(OnDay(rows, day))|
  {
    hide LakeCandidates, OnDay, VersionsShareEventTime;
    var before, own := CandidatesOnDays(rows, days), set a | a in LakeCandidates(OnDay(rows, day));
    CandidatesOnce(OnDay(rows, day));
    DistinctCount(LakeCandidates(OnDay(rows, day)));
    forall a ensures a in own <==> a in LakeCandidates(rows) && DayOf(a.res.conv.eventTime) == day {
      CandidatesOfDay(rows, day, a);
    }
    assert CandidatesOnDays(rows, days + [day]) == before + own && before !! own;
  }

  lemma CandidatesOnce(rows: seq<Attributed>)
    ensures Distinct(LakeCandidates(rows))
  {
    hide LakeCandidates;
    CandidatesAre(rows);
  }

  lemma NoDays(s: State)
    ensures RunOf(s, LoadSteps([])) == s && ExposuresRead(s.lakeExposures, []) == 0 && RowsRead(s.lakeRows, []) == 0
  {
  }

  lemma OneMoreDay(s: State, days: seq<int>, day: int)
    ensures RunOf(s, LoadSteps(days + [day])) ==
        Next(Next(RunOf(s, LoadSteps(days)), LoadExposures(day)), LoadRows(day))
    ensures ExposuresRead(s.lakeExposures, days + [day]) ==
            ExposuresRead(s.lakeExposures, days) + |DayQuery(s.lakeExposures, day)|
    ensures RowsRead(s.lakeRows, days + [day]) == RowsRead(s.lakeRows, days) + |ReadCurrent(OnDay(s.lakeRows, day))|
  {
    hide Next, DayQuery, ReadCurrent, OnDay;
    var two := [LoadExposures(day), LoadRows(day)];
    assert Init(days + [day]) == days && Last(days + [day]) == day;
    RunAppend(s, LoadSteps(days), two);
    var t := RunOf(s, LoadSteps(days));
    assert two[1..] == [LoadRows(day)] && [LoadRows(day)][1..] == [];
    assert RunOf(Next(t, two[0]), two[1..]) == RunOf(Next(Next(t, two[0]), two[1]), []);
  }

  class Warehouse {
    var lakeExposures: seq<Exposure>
    var lakeRows: seq<Attributed>
    var exposuresLanded: set<Exposure>
    var attributedConversions: set<Attributed>
    var rollupDirty: set<Stamp>
    var rollupRefreshed: set<Stamp>
    var campaignHourly: set<Hourly>
    var reportSnapshots: set<Report>

    function Value(): State
      reads this
    {
      State(lakeExposures, lakeRows, exposuresLanded, attributedConversions, rollupDirty, rollupRefreshed,
        campaignHourly)
    }

    constructor ()
      ensures Value() == State([], [], {}, {}, {}, {}, {}) && reportSnapshots == {}
    {
      lakeExposures, lakeRows := [], [];
      exposuresLanded, attributedConversions := {}, {};
      rollupDirty, rollupRefreshed, campaignHourly := {}, {}, {};
      reportSnapshots := {};
    }

    // ---------- the lake ----------

    /** Append, and report the days touched. */
    method LandExposures(added: seq<Exposure>) returns (touched: set<int>)
      modifies this`lakeExposures
      ensures Value() == Next(old(Value()), Step.LandExposures(added))
      ensures touched == DaysAired(added)
    {
      if added == [] {
        assert lakeExposures + added == lakeExposures;
        return {};
      }
      lakeExposures := lakeExposures + added;
      touched := set e | e in added :: DayOf(e.eventTime);
    }

    method LandAttributed(added: seq<Attributed>) returns (touched: set<int>)
      modifies this`lakeRows
      ensures Value() == Next(old(Value()), LandRows(added))
      ensures touched == DaysOf(added)
    {
      if added == [] {
        assert lakeRows + added == lakeRows;
        return {};
      }
      lakeRows := lakeRows + added;
      touched := set a | a in added :: a.Day();
    }

    // ---------- day loads ----------

    /** Insert in batches. */
    method InsertExposures(added: seq<Exposure>)
      modifies this`exposuresLanded
      ensures exposuresLanded == old(exposuresLanded) + SetOf(added)
    {
      var at := 0;
      while at < |added|
        invariant 0 <= at <= |added|
        invariant exposuresLanded == old(exposuresLanded) + SetOf(added[..at])
      {
        var to := if at + BATCH < |added| then at + BATCH else |added|;
        assert added[..to] == added[..at] + added[at..to];
        exposuresLanded := exposuresLanded + SetOf(added[at..to]);
        at := to;
      }
      assert added[..|added|] == added;
    }

    method InsertAttributed(added: seq<Attributed>)
      modifies this`attributedConversions
      ensures attributedConversions == old(attributedConversions) + SetOf(added)
    {
      var at := 0;
      while at < |added|
        invariant 0 <= at <= |added|
        invariant attributedConversions == old(attributedConversions) + SetOf(added[..at])
      {
        var to := if at + BATCH < |added| then at + BATCH else |added|;
        assert added[..to] == added[..at] + added[at..to];
        attributedConversions := attributedConversions + SetOf(added[at..to]);
        at := to;
      }
      assert added[..|added|] == added;
    }

    /** The exposures of the day and what is already credited to them. */
    method RecordDirtyExposureKeys(day: int)
      modifies this`rollupDirty
      ensures rollupDirty == old(rollupDirty) + ExposureStamps(old(Value()), day)
    {
      hide Items, Recorded;
      ghost var s := Value();
      rollupDirty := rollupDirty + Recorded(AiredOn(Items(attributedConversions, exposuresLanded), day));
      rollupDirty := rollupDirty + Recorded(CreditedToDay(Items(attributedConversions, exposuresLanded), day));
    }

    method RecordDirtyAttributedKeys(day: int)
      modifies this`rollupDirty
      ensures rollupDirty == old(rollupDirty) + RowStamps(old(Value()), day)
    {
      hide Items, Recorded;
      rollupDirty := rollupDirty + Recorded(CreditedOn(Items(attributedConversions, exposuresLanded), day));
    }

    method LoadExposuresDay(day: int) returns (inserted: nat)
      modifies this`exposuresLanded, this`rollupDirty
      ensures Value() == Next(old(Value()), Step.LoadExposures(day))
      ensures inserted == |DayQuery(lakeExposures, day)| == |DayExposures(old(Value()), day)|
    {
      hide DayQuery, ExposureStamps;
      ghost var s := Value();
      var added := DayQuery(lakeExposures, day);
      DayQueryIs(lakeExposures, day);
      DistinctCount(added);
      assert SetOf(added) == DayExposures(s, day);
      InsertExposures(added);
      assert Value() == WithExposures(s, DayExposures(s, day));
      RecordDirtyExposureKeys(day);
      inserted := |added|;
    }

    method LoadAttributedDay(day: int) returns (inserted: nat)
      modifies this`attributedConversions, this`rollupDirty
      ensures Value() == Next(old(Value()), LoadRows(day))
      ensures inserted == |ReadCurrent(OnDay(lakeRows, day))|
    {
      hide ReadCurrent, OnDay, RowStamps;
      ghost var s := Value();
      var added := ReadCurrent(OnDay(lakeRows, day));
      assert SetOf(added) == DayRows(s, day);
      InsertAttributed(added);
      assert Value() == WithRows(s, DayRows(s, day));
      RecordDirtyAttributedKeys(day);
      inserted := |added|;
    }

    // ---------- the rollup ----------

    /** Recompute the dirty keys, then stamp them. */
    method RefreshCampaignHourly() returns (recomputed: nat)
      modifies this`campaignHourly, this`rollupRefreshed
      ensures Value() == Next(old(Value()), Refresh)
      ensures recomputed == |DirtyNow(old(Value()))|
      ensures forall h :: h in campaignHourly && h !in old(campaignHourly) ==>
                IsHour(h, attributedConversions, exposuresLanded)
      ensures forall d, e ::
                IsDirty(d, rollupDirty, old(rollupRefreshed)) && e in exposuresLanded && HourHolds(d.key, e) ==>
                exists h :: h in campaignHourly && h.key == d.key && IsHour(h, attributedConversions, exposuresLanded)
    {
      hide IsHour, AddsUp, NewestIs, HourHolds, IsDirty, Items, DirtyKeys, RowOf;
      ghost var s := Value();
      var keys := DirtyKeys(rollupDirty, rollupRefreshed);
      var items := Items(attributedConversions, Only(exposuresLanded, StampedKeys(keys)));
      var left, inserted := items, {};
      while left != {}
        invariant Value() == s && left <= items
        invariant forall i, j :: i in left && j in items && i.Key() == j.Key() ==> j in left
        invariant forall h :: h in inserted <==>
            exists i :: i in items && i !in left && h == RowOf(i.Key(), Peers(items, i))
        decreases left
      {
        var i :| i in left;
        var group := ItemsAt(items, i.Key());
        assert i in group && group <= left;
        var row := Aggregate(i.Key(), group);
        OneMoreRow(items, left, inserted, i, row);
        inserted, left := inserted + {row}, left - group;
      }
      assert inserted == Rebuild(items) by { AllRows(items, inserted); }
      assert inserted == Recomputed(s) && keys == DirtyNow(s);
      campaignHourly := campaignHourly + inserted;
      rollupRefreshed := rollupRefreshed + keys;
      recomputed := |keys|;
      RecomputedMeans(s);
    }

    // ---------- the report ----------

    /** One row per campaign, over both tables as they are now. */
    method WriteReportSnapshot(offset: Time, hotOnly: bool)
      modifies this`reportSnapshots
      ensures reportSnapshots == old(reportSnapshots) + Snapshot(Value(), offset, hotOnly)
      ensures HoldsReports(reportSnapshots, Value(), offset, hotOnly)
      ensures AreReports(reportSnapshots - old(reportSnapshots), Value(), offset, hotOnly)
    {
      hide HoldsReports, AreReports, AddsUp, NewestIs, ExposuresIn, CreditsIn, Snapshot, Items, ReportOf, Sum,
           SnapshotVersion, ServedMaxIngest;
      ghost var s, before := Value(), reportSnapshots;
      var items := ItemsOf(Value());
      var reportedAt, version := ServedMaxIngest(Value()) + offset, SnapshotVersion(Value(), hotOnly);
      var left := exposuresLanded;
      while left != {}
        invariant Value() == s && left <= exposuresLanded
        invariant forall r :: r in reportSnapshots <==>
                    r in before ||
                    exists e :: e in s.exposures && e !in left && r == ReportOf(s, e.campaignId, offset, hotOnly)
        decreases left
      {
        var e :| e in left;
        assert Aired(e) in items by { ItemIs(attributedConversions, exposuresLanded, Aired(e)); }
        var group := OfCampaign(items, e.campaignId, hotOnly);
        assert Aired(e) in group;
        var h := Aggregate(Key(e.campaignId, 0), group);
        var r := Report(reportedAt, e.campaignId, h.spend, h.revenue, h.conversions, h.purchases, h.exposures,
                        h.siteVisits, version);
        ReportIs(s, e.campaignId, offset, hotOnly, h);
        OneMoreReport(s, left, e, offset, hotOnly, before, reportSnapshots);
        reportSnapshots, left := reportSnapshots + {r}, left - {e};
      }
      AllReports(s, offset, hotOnly, before, reportSnapshots);
      WroteSnapshot(s, offset, hotOnly, before, reportSnapshots);
    }

    /** The pre and the post report of a reconciliation. */
    method Finalize()
      modifies this`reportSnapshots
      ensures reportSnapshots == old(reportSnapshots) + BothReports(Value())
      ensures HoldsBothReports(reportSnapshots, Value())
      ensures AreOfBoth(reportSnapshots - old(reportSnapshots), Value())
    {
      hide IsReport, Snapshot, HoldsReports;
      WriteReportSnapshot(0, true);
      WriteReportSnapshot(RECONCILE_DELTA_MS, false);
      BothReportsMean(Value());
      MoreReports(BothReports(Value()), reportSnapshots, Value(), 0, true);
      MoreReports(BothReports(Value()), reportSnapshots, Value(), 1000, false);
    }

    // ---------- jobs ----------

    /** The day loads, exposures first. */
    method LoadDays(days: seq<int>) returns (exposures: nat, attributed: nat)
      modifies this`exposuresLanded, this`attributedConversions, this`rollupDirty
      ensures Value() == RunOf(old(Value()), LoadSteps(days))
      ensures exposures == ExposuresRead(lakeExposures, days) && attributed == RowsRead(lakeRows, days)
    {
      hide Next, RunOf, LoadSteps, ExposuresRead, RowsRead;
      ghost var s := Value();
      NoDays(s);
      exposures, attributed := 0, 0;
      for k := 0 to |days|
        invariant Value() == RunOf(s, LoadSteps(days[..k]))
        invariant exposures == ExposuresRead(lakeExposures, days[..k])
        invariant attributed == RowsRead(lakeRows, days[..k])
      {
        assert days[..k + 1] == days[..k] + [days[k]];
        OneMoreDay(s, days[..k], days[k]);
        var x := LoadExposuresDay(days[k]);
        var a := LoadAttributedDay(days[k]);
        exposures, attributed := exposures + x, attributed + a;
      }
      assert days[..|days|] == days;
    }

    /** Load every day, then refresh the rollup once. */
    method MaterializeLoad(days: set<int>, calendar: set<int>) returns (r: LoadResult)
      modifies this`exposuresLanded, this`attributedConversions, this`rollupDirty, this`rollupRefreshed,
               this`campaignHourly
      ensures days - calendar != {} ==> r == UnknownPartition(SortedIds(days - calendar)) && Value() == old(Value())
      ensures days <= calendar ==> Value() == LoadJob(old(Value()), days)
      ensures days == {} ==> r == Loaded(0, 0, None)
      ensures days <= calendar && days != {} ==>
        var s, sorted := old(Value()), SortedIds(days);
        r == Loaded(ExposuresRead(s.lakeExposures, sorted), RowsRead(s.lakeRows, sorted),
                    Some(|DirtyNow(RunOf(s, LoadSteps(sorted)))|))
    {
      hide Next, RunOf, LoadSteps, ExposuresRead, RowsRead, DirtyNow;
      NothingLeft(days, calendar);
      if days == {} {
        return Loaded(0, 0, None);
      }
      if days - calendar != {} {
        return UnknownPartition(SortedIds(days - calendar));
      }
      var exposures, attributed := LoadDays(SortedIds(days));
      var keys := RefreshCampaignHourly();
      r := Loaded(exposures, attributed, Some(keys));
    }

    /** The days worth loading: exactly those whose load inserts a row. A root without a
        catalog has none. */
    method LakeDays(catalogExists: bool) returns (days: set<int>)
      ensures !catalogExists ==> days == {}
      ensures catalogExists ==> forall d :: d in days <==> DayExposures(Value(), d) != {} || DayRows(Value(), d) != {}
      ensures catalogExists ==> (days == {} <==> lakeExposures == [] && lakeRows == [])
    {
      hide DayExposures, DayRows;
      if !catalogExists {
        return {};
      }
      days := (set e | e in lakeExposures :: DayOf(e.eventTime)) + (set a | a in lakeRows :: a.Day());
      forall d ensures d in days <==> DayExposures(Value(), d) != {} || DayRows(Value(), d) != {} {
        SomethingOn(Value(), d);
      }
      if lakeExposures != [] { assert DayOf(lakeExposures[0].eventTime) in days; }
      if lakeRows != [] { assert lakeRows[0].Day() in days; }
    }

    method EmptyTable(table: ServingTable)
      modifies this`exposuresLanded, this`attributedConversions, this`rollupDirty, this`rollupRefreshed,
               this`campaignHourly
      ensures Value() == Next(old(Value()), TruncateTable(table))
    {
      match table {
        case ExposuresLanded => exposuresLanded := {};
        case AttributedConversions => attributedConversions := {};
        case EvalMeta =>
        case CampaignHourly => campaignHourly := {};
        case RollupDirty => rollupDirty := {};
        case RollupRefreshed => rollupRefreshed := {};
      }
    }

    /** Empty the derived tables, one after the other, and load them again from the lake.
        Callers have checked the days against the calendar; if they had not, the tables would
        stay empty. */
    method TruncateAndReload(days: set<int>, calendar: set<int>) returns (r: LoadResult)
      modifies this`exposuresLanded, this`attributedConversions, this`rollupDirty, this`rollupRefreshed,
               this`campaignHourly
      ensures days == {} ==> r == EmptyLake && Value() == old(Value())
      ensures days != {} && days <= calendar ==> Value() == LoadJob(Next(old(Value()), Truncate), days) && r.Loaded?
      ensures days != {} && !(days <= calendar) ==> Value() == Next(old(Value()), Truncate) && r.UnknownPartition?
    {
      hide RunOf, LoadSteps, Next;
      if days == {} {
        return EmptyLake;
      }
      NoneTruncated(Value());
      for k := 0 to |SERVING_TABLES|
        invariant Value() == RunOf(old(Value()), Truncations()[..k])
      {
        assert Truncations()[..k + 1] == Truncations()[..k] + [TruncateTable(SERVING_TABLES[k])];
        RunSnoc(old(Value()), Truncations()[..k], TruncateTable(SERVING_TABLES[k]));
        EmptyTable(SERVING_TABLES[k]);
      }
      assert Truncations()[..|SERVING_TABLES|] == Truncations();
      AllTruncated(old(Value()));
      NothingLeft(days, calendar);
      r := MaterializeLoad(days, calendar);
    }

    /** The hot pass over two drained topics: resolve the conversions, drop exact re-sends
        unless that is switched off, run the engine, land both streams, load the days touched. */
    method RunEngine(exposures: seq<Exposure>, conversions: seq<Conversion>, index: GraphIndex, lateness: Time,
        dedup: bool, calendar: set<int>)
      returns (r: EngineResult)
      modifies this`lakeExposures, this`lakeRows, this`exposuresLanded, this`attributedConversions,
               this`rollupDirty, this`rollupRefreshed, this`campaignHourly
      ensures r.RunRaised? <==> RunRaises(EngineInput(Drained(exposures, conversions, index, lateness), dedup).resolved)
      ensures r.RunRaised? ==> Value() == old(Value())
      ensures r.Ran? ==>
        Value() == EngineJob(old(Value()), EngineInput(Drained(exposures, conversions, index, lateness), dedup))
      ensures r.RunNotLoaded? ==>
        var i := EngineInput(Drained(exposures, conversions, index, lateness), dedup);
        Value() == Next(Next(old(Value()), Step.LandExposures(i.exposures)), LandRows(HotRows(i)))
      ensures r.Ran? ==>
        var raw := Drained(exposures, conversions, index, lateness);
        var i := EngineInput(raw, dedup);
        && r.landed == |i.exposures| && r.rows == |HotRows(i)| && r.resolved == |i.resolved|
        && r.suppressed + r.landed + r.resolved == |raw.exposures| + |raw.resolved|
      ensures r.Ran? && !dedup ==> r.landed == |exposures| && r.suppressed == 0
      ensures r.Ran? && dedup ==>
                && r.landed == |set e | e in exposures :: e.exposureId|
                && r.resolved == |set x | x in ResolveAll(conversions, index) :: (x.conv.conversionId, x.householdId)|
    {
      DedupCounts(exposures, ResolveAll(conversions, index));
      hide EngineOutput, LoadJob, RunRaises, KeepFirst, ResolveAll;
      var resolvedRaw := ResolveStream(conversions, index);
      var kept, resolved, suppressed := exposures, resolvedRaw, 0;
      if dedup {
        kept, resolved, suppressed := DedupStreams(exposures, resolvedRaw);
      }
      var run := RunAttribution(kept, resolved, lateness);
      if run.ValueError? {
        return RunRaised;
      }
      var x := LandExposures(kept);
      var y := LandAttributed(run.value);
      NothingLeft(x + y, calendar);
      var loaded := MaterializeLoad(x + y, calendar);
      r := if loaded.UnknownPartition? then RunNotLoaded(loaded.days)
           else Ran(|kept|, |run.value|, |resolved|, suppressed);
    }

    /** One reconciliation, before its reports: recover every candidate day, land the
        corrections in one append, load the days touched. */
    method RecoverAndLoad(bucketOf: Id -> int, calendar: set<int>) returns (r: JobResult)
      modifies this`lakeRows, this`exposuresLanded, this`attributedConversions,
               this`rollupDirty, this`rollupRefreshed, this`campaignHourly
      ensures r.Raised? <==> exists d :: d in CandidateDays(old(lakeRows)) && DayRaises(old(Value()), d)
      ensures r.Raised? ==> Value() == old(Value())
      ensures r.Done? ==> Value() == ReconcileJob(old(Value()), CandidateDays(old(lakeRows)))
      ensures r.Done? ==> r.candidates == |LakeCandidates(old(lakeRows))|
                          && r.recovered == |Corrections(old(Value()), CandidateDays(old(lakeRows)))|
      ensures r.NotLoaded? ==>
        Value() == Next(old(Value()), LandRows(Corrections(old(Value()), CandidateDays(old(lakeRows)))))
    {
      hide LakeCandidates, PassOver, ServedMaxIngest, LoadJob, DaysOf, OnDay, PassRaises, CandidateDays;
      ghost var s := Value();
      var at := ReconciledAtFor(ServedMaxIngest(Value()));
      var days := CandidateDays(lakeRows);
      var recovered: seq<Attributed> := [];
      for k := 0 to |days|
        invariant Value() == s
        invariant recovered == RecoveredByDay(days[..k], s.lakeExposures, s.lakeRows, LONG_WINDOW, at)
        invariant forall j :: 0 <= j < k ==> !DayRaises(s, days[j])
      {
        assert Init(days[..k + 1]) == days[..k] && Last(days[..k + 1]) == days[k];
        var part := RecoverDay(lakeExposures, lakeRows, bucketOf, days[k], at, LONG_WINDOW);
        if part.ValueError? {
          assert days[k] in days && DayRaises(s, days[k]);
          return Raised;
        }
        recovered := recovered + part.value;
      }
      assert days[..|days|] == days;
      var candidates := |LakeCandidates(lakeRows)|;
      var touched := LandAttributed(recovered);
      NothingLeft(touched, calendar);
      var loaded := MaterializeLoad(touched, calendar);
      r := if loaded.UnknownPartition? then NotLoaded(loaded.days) else Done(candidates, |recovered|);
    }

    /** A whole reconciliation: recover, land, load, report. */
    method RunReconcile(bucketOf: Id -> int, calendar: set<int>) returns (r: JobResult)
      modifies this
      ensures r.Raised? <==> exists d :: d in CandidateDays(old(lakeRows)) && DayRaises(old(Value()), d)
      ensures r.Raised? ==> Value() == old(Value())
      ensures r.Done? ==> Value() == ReconcileJob(old(Value()), CandidateDays(old(lakeRows)))
      ensures r.Done? ==> r.candidates == |LakeCandidates(old(lakeRows))|
                          && r.recovered == |Corrections(old(Value()), CandidateDays(old(lakeRows)))|
      ensures r.NotLoaded? ==>
        Value() == Next(old(Value()), LandRows(Corrections(old(Value()), CandidateDays(old(lakeRows)))))
      ensures reportSnapshots == old(reportSnapshots) + (if r.Done? then BothReports(Value()) else {})
      ensures r.Done? ==> HoldsBothReports(reportSnapshots, Value())
      ensures AreOfBoth(reportSnapshots - old(reportSnapshots), Value())
    {
      hide IsReport, HoldsBothReports, DayRaises, CandidateDays, ReconcileJob, BothReports, Next, Corrections,
           LakeCandidates;
      r := RecoverAndLoad(bucketOf, calendar);
      if r.Done? { Finalize(); }
    }

    /** One partition: its candidates, its corrections, and the days they touch. */
    method ReconcilePartition(day: int, bucketOf: Id -> int) returns (r: Result<(nat, nat, set<int>)>)
      modifies this`lakeRows
      ensures r.ValueError? <==> DayRaises(old(Value()), day)
      ensures r.ValueError? ==> Value() == old(Value())
      ensures r.Ok? ==> Value() == Next(old(Value()), LandRows(PartitionRows(old(Value()), day)))
      ensures r.Ok? ==> r.value.0 == |LakeCandidates(OnDay(old(lakeRows), day))|
      ensures r.Ok? ==>
        r.value.1 == |PartitionRows(old(Value()), day)| && r.value.2 == DaysOf(PartitionRows(old(Value()), day))
    {
      hide LakeCandidates, PassOver, ServedMaxIngest, OnDay, PassRaises, DaysOf;
      var at := ReconciledAtFor(ServedMaxIngest(Value()));
      var candidates := LakeCandidates(OnDay(lakeRows, day));
      var part := RecoverDay(lakeExposures, lakeRows, bucketOf, day, at, LONG_WINDOW);
      if part.ValueError? {
        return ValueError;
      }
      var touched := LandAttributed(part.value);
      return Ok((|candidates|, |part.value|, touched));
    }

    /** The orchestrated reconciliation: one partition after another, each landing its own
        corrections, then one load. However the days are cut it lands what one append
        would: the later days see the same candidates and the same version. */
    method RecoverByDay(days: seq<int>, bucketOf: Id -> int, calendar: set<int>) returns (r: JobResult)
      requires Distinct(days)
      modifies this`lakeRows, this`exposuresLanded, this`attributedConversions,
               this`rollupDirty, this`rollupRefreshed, this`campaignHourly
      ensures r.Raised? <==> exists d :: d in days && DayRaises(old(Value()), d)
      ensures r.Raised? ==>
        exists k :: 0 <= k < |days| && Value() == Next(old(Value()), LandRows(Corrections(old(Value()), days[..k])))
      ensures r.Done? ==> Value() == ReconcileJob(old(Value()), days)
      ensures r.Done? ==>
        r.candidates == CandidatesOn(old(lakeRows), days) && r.recovered == |Corrections(old(Value()), days)|
      ensures r.NotLoaded? ==> Value() == Next(old(Value()), LandRows(Corrections(old(Value()), days)))
    {
      hide PartitionRows, Corrections, LoadJob, DayRaises, DaysOf, LakeCandidates, OnDay, CandidatesOn;
      ghost var s := Value();
      var touched, candidates, recovered := {}, 0, 0;
      NothingLanded(s);
      for k := 0 to |days|
        invariant Value() == Next(s, LandRows(Corrections(s, days[..k])))
        invariant touched == DaysOf(Corrections(s, days[..k]))
        invariant candidates == CandidatesOn(s.lakeRows, days[..k]) && recovered == |Corrections(s, days[..k])|
        invariant forall j :: 0 <= j < k ==> !DayRaises(s, days[j])
      {
        assert days[..k + 1] == days[..k] + [days[k]];
        PartitionLands(s, days[..k], days[k]);
        var part := ReconcilePartition(days[k], bucketOf);
        if part.ValueError? {
          assert days[k] in days;
          return Raised;
        }
        candidates, recovered := candidates + part.value.0, recovered + part.value.1;
        touched := touched + part.value.2;
      }
      assert days[..|days|] == days;
      NothingLeft(touched, calendar);
      var loaded := MaterializeLoad(touched, calendar);
      r := if loaded.UnknownPartition? then NotLoaded(loaded.days) else Done(candidates, recovered);
    }

    /** Rewrite each day's partition; the table keeps exactly its rows. */
    method CompactDays(days: seq<int>) returns (rewritten: nat)
      modifies this`lakeRows
      ensures multiset(lakeRows) == multiset(old(lakeRows)) && rewritten == |days|
      ensures Possible(old(Value()), Compact(lakeExposures, lakeRows))
      ensures Value() == Next(old(Value()), Compact(lakeExposures, lakeRows))
    {
      hide OnDay;
      for k := 0 to |days|
        invariant multiset(lakeRows) == multiset(old(lakeRows))
      {
        var rows := OnDay(lakeRows, days[k]);
        if rows != [] {
          SplitByDay(lakeRows, days[k]);
          lakeRows := OffDay(lakeRows, days[k]) + rows;
        }
      }
      SameElements(lakeRows, old(lakeRows));
      rewritten := |days|;
    }

    /** The same for the other table. */
    method CompactExposureDays(days: seq<int>) returns (rewritten: nat)
      modifies this`lakeExposures
      ensures multiset(lakeExposures) == multiset(old(lakeExposures)) && rewritten == |days|
      ensures Possible(old(Value()), Compact(lakeExposures, lakeRows))
      ensures Value() == Next(old(Value()), Compact(lakeExposures, lakeRows))
    {
      hide AiredOnDay;
      for k := 0 to |days|
        invariant multiset(lakeExposures) == multiset(old(lakeExposures))
      {
        var rows := AiredOnDay(lakeExposures, days[k]);
        if rows != [] {
          SplitExposuresByDay(lakeExposures, days[k]);
          lakeExposures := AiredOffDay(lakeExposures, days[k]) + rows;
        }
      }
      SameElements(lakeExposures, old(lakeExposures));
      rewritten := |days|;
    }
  }

  /** A refresh inserts, for every dirty hour in which something aired, its row as the tables
      give it, and nothing else. */
  lemma RecomputedMeans(s: State)
    ensures forall h :: h in Recomputed(s) ==> IsHour(h, s.rows, s.exposures)
    ensures forall d, e :: IsDirty(d, s.dirty, s.refreshed) && e in s.exposures && HourHolds(d.key, e) ==>
              exists h :: h in Recomputed(s) && h.key == d.key && IsHour(h, s.rows, s.exposures)
  {
    hide IsHour, HourHolds, Rebuild, Items, DirtyKeys, IsDirty, Only;
    RebuildMeaning(s.rows, s.exposures);
    forall h ensures h in Recomputed(s) <==>
                     h.key in StampedKeys(DirtyNow(s)) && h in Rebuild(Items(s.rows, s.exposures))
    {
      FilterIsRestriction(s.rows, s.exposures, StampedKeys(DirtyNow(s)), h);
    }
    forall d, e | IsDirty(d, s.dirty, s.refreshed) && e in s.exposures && HourHolds(d.key, e)
      ensures exists h :: h in Recomputed(s) && h.key == d.key && IsHour(h, s.rows, s.exposures)
    {
      DirtyMeaning(s.dirty, s.refreshed, d);
      assert d.key in StampedKeys(DirtyNow(s));
      var h :| h in Rebuild(Items(s.rows, s.exposures)) && HourHolds(h.key, e);
      OneHour(d.key, h.key, e);
    }
  }

  lemma OneHour(k: Key, l: Key, e: Exposure)
    requires HourHolds(k, e) && HourHolds(l, e)
    ensures k == l
  {
    CalendarIs(e.eventTime, k.hour);
    CalendarIs(e.eventTime, l.hour);
  }

  lemma NoneTruncated(s: State)
    ensures RunOf(s, Truncations()[..0]) == s
  {
  }

  /** A day's load inserts an exposure, or a row, iff the lake holds one of that day. */
  lemma SomethingOn(s: State, day: int)
    ensures DayExposures(s, day) != {} <==> exists e :: e in s.lakeExposures && DayOf(e.eventTime) == day
    ensures DayRows(s, day) != {} <==> exists a :: a in s.lakeRows && a.Day() == day
  {
    hide CurrentOf, ReadCurrent, OnDay;
    if e :| e in s.lakeExposures && DayOf(e.eventTime) == day { assert e in DayExposures(s, day); }
    ReadCurrentIs(OnDay(s.lakeRows, day));
    forall a ensures a in OnDay(s.lakeRows, day) <==> a in s.lakeRows && a.Day() == day { OnDayIs(s.lakeRows, day, a); }
    if a :| a in s.lakeRows && a.Day() == day {
      CurrentIs(OnDay(s.lakeRows, day), a.Cid());
      assert a.Cid() in CidsOf(OnDay(s.lakeRows, day));
      assert CurrentOf(OnDay(s.lakeRows, day), a.Cid()).value in DayRows(s, day);
    }
  }

  lemma NothingLanded(s: State)
    ensures s == Next(s, LandRows(Corrections(s, []))) && DaysOf(Corrections(s, [])) == {} && Corrections(s, []) == []
    ensures CandidatesOn(s.lakeRows, []) == 0
  {
    assert s.lakeRows + [] == s.lakeRows;
  }

  /** A later partition sees what it would have seen alone. */
  lemma PartitionLands(s: State, days: seq<int>, day: int)
    requires day !in days
    ensures var t := Next(s, LandRows(Corrections(s, days)));
      && (DayRaises(t, day) <==> DayRaises(s, day))
      && Next(t, LandRows(PartitionRows(t, day))) == Next(s, LandRows(Corrections(s, days + [day])))
      && DaysOf(Corrections(s, days + [day])) == DaysOf(Corrections(s, days)) + DaysOf(PartitionRows(t, day))
      && |Corrections(s, days + [day])| == |Corrections(s, days)| + |PartitionRows(t, day)|
      && CandidatesOn(s.lakeRows, days + [day]) ==
        CandidatesOn(s.lakeRows, days) + |LakeCandidates(OnDay(t.lakeRows, day))|
  {
    hide LakeCandidates, PassOver, ServedMaxIngest, OnDay, PassRaises, DaysOf;
    var t := Next(s, LandRows(Corrections(s, days)));
    assert Init(days + [day]) == days && Last(days + [day]) == day;
    LandedElsewhere(days, day, s.lakeExposures, s.lakeRows, LONG_WINDOW, ReconciledAtFor(ServedMaxIngest(s)));
    SameMaxIngest(s, t);
    MoreDays(Corrections(s, days), PartitionRows(t, day));
    var more := PartitionRows(t, day);
    assert s.lakeRows + (Corrections(s, days) + more) == s.lakeRows + Corrections(s, days) + more;
  }

  lemma SameMaxIngest(s: State, t: State)
    requires s.exposures == t.exposures && s.rows == t.rows
    ensures ServedMaxIngest(s) == ServedMaxIngest(t)
  {
  }

  lemma MoreDays(x: seq<Attributed>, y: seq<Attributed>)
    ensures DaysOf(x + y) == DaysOf(x) + DaysOf(y)
  {
  }

  function OffDay(rows: seq<Attributed>, day: int): seq<Attributed> {
    if rows == [] then []
    else OffDay(Init(rows), day) + (if Last(rows).Day() == day then [] else [Last(rows)])
  }

  lemma {:induction false} SplitByDay(rows: seq<Attributed>, day: int)
    ensures multiset(OffDay(rows, day) + OnDay(rows, day)) == multiset(rows)
  {
    if rows != [] {
      SplitByDay(Init(rows), day);
      assert rows == Init(rows) + [Last(rows)];
    }
  }

  function AiredOffDay(exposures: seq<Exposure>, day: int): seq<Exposure> {
    if exposures == [] then []
    else AiredOffDay(Init(exposures), day) + (if DayOf(Last(exposures).eventTime) == day then [] else [Last(exposures)])
  }

  lemma {:induction false} SplitExposuresByDay(exposures: seq<Exposure>, day: int)
    ensures multiset(AiredOffDay(exposures, day) + AiredOnDay(exposures, day)) == multiset(exposures)
  {
    if exposures != [] {
      SplitExposuresByDay(Init(exposures), day);
      assert exposures == Init(exposures) + [Last(exposures)];
    }
  }

  lemma ReportIs(s: State, c: Id, offset: Time, hotOnly: bool, h: Hourly)
    requires OfCampaign(ItemsOf(s), c, hotOnly) != {}
    requires h == RowOf(Key(c, 0), OfCampaign(ItemsOf(s), c, hotOnly))
    ensures ReportOf(s, c, offset, hotOnly)
         == Report(ServedMaxIngest(s) + offset, c, h.spend, h.revenue, h.conversions, h.purchases, h.exposures,
           h.siteVisits,
                   SnapshotVersion(s, hotOnly))
  {
    hide Items, Sum, SnapshotVersion, ServedMaxIngest;
  }

  lemma OneMoreReport(s: State, left: set<Exposure>, e: Exposure, offset: Time, hotOnly: bool, before: set<Report>,
                      now: set<Report>)
    requires e in left && left <= s.exposures
    requires forall r :: r in now <==>
               r in before ||
               exists x :: x in s.exposures && x !in left && r == ReportOf(s, x.campaignId, offset, hotOnly)
    ensures forall r :: r in now + {ReportOf(s, e.campaignId, offset, hotOnly)} <==>
              r in before ||
              exists x :: x in s.exposures && x !in left - {e} && r == ReportOf(s, x.campaignId, offset, hotOnly)
  {
    hide ReportOf;
    var row := ReportOf(s, e.campaignId, offset, hotOnly);
    forall r ensures r in now + {row} <==>
        r in before ||
        exists x :: x in s.exposures && x !in left - {e} && r == ReportOf(s, x.campaignId, offset, hotOnly)
    {
      if r in now && r !in before {
        var x :| x in s.exposures && x !in left && r == ReportOf(s, x.campaignId, offset, hotOnly);
        assert x !in left - {e};
      }
      if r == row { assert e !in left - {e}; }
    }
  }

  lemma AllReports(s: State, offset: Time, hotOnly: bool, before: set<Report>, now: set<Report>)
    requires forall r :: r in now <==>
               r in before ||
               exists x :: x in s.exposures && x !in {} && r == ReportOf(s, x.campaignId, offset, hotOnly)
    ensures now == before + Snapshot(s, offset, hotOnly)
  {
    hide ReportOf;
  }

  lemma OneMoreRow(items: set<Item>, left: set<Item>, inserted: set<Hourly>, x: Item, row: Hourly)
    requires x in left && left <= items && row == RowOf(x.Key(), Peers(items, x))
    requires forall i, j :: i in left && j in items && i.Key() == j.Key() ==> j in left
    requires forall h :: h in inserted <==> exists i :: i in items && i !in left && h == RowOf(i.Key(), Peers(items, i))
    ensures forall h :: h in inserted + {row} <==>
              exists i :: i in items && i !in left - ItemsAt(items, x.Key()) && h == RowOf(i.Key(), Peers(items, i))
  {
    hide RowOf;
    var after := left - ItemsAt(items, x.Key());
    forall h ensures h in inserted + {row} <==>
      exists i :: i in items && i !in after && h == RowOf(i.Key(), Peers(items, i))
    {
      if h in inserted {
        var i :| i in items && i !in left && h == RowOf(i.Key(), Peers(items, i));
        assert i !in after;
      }
      if h == row { assert x !in after; }
      if i :| i in items && i !in after && h == RowOf(i.Key(), Peers(items, i)) {
        if i in left { assert i.Key() == x.Key(); }
      }
    }
  }

  lemma AllRows(items: set<Item>, inserted: set<Hourly>)
    requires forall h :: h in inserted <==> exists i :: i in items && i !in {} && h == RowOf(i.Key(), Peers(items, i))
    ensures inserted == Rebuild(items)
  {
    hide RowOf;
  }
}
