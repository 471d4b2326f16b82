/** The report snapshots that end a reconciliation (reconcile/rollup.py:145-223,
    reconcile/reconcile.py:274-288), and what restating a report can and cannot do. The
    ratios of a report are left as their numerators and denominators. */
module Restatement {
  import opened Rows
  import opened Orders
  import opened Leaf
  import opened Collapse
  import opened Lateness
  import opened Dataflow
  import opened Reconcile
  import opened Lake
  import opened Recover
  import opened Protocol
  import opened Rollup
  import opened Serving
  import opened Pipeline

  datatype Report = Report(reportedAt: Time, campaign: Id, spend: nat, revenue: nat, conversions: nat, purchases: nat,
                           exposures: nat, siteVisits: nat, version: Time)

  // ---------- one snapshot ----------

  /** The path filter of the report as of the hot pass. */
  predicate Shown(x: Item, hotOnly: bool) { x.Aired? || !hotOnly || x.a.path == Hot }

  function OfCampaign(items: set<Item>, c: Id, hotOnly: bool): set<Item> {
    set x | x in items && x.e.campaignId == c && Shown(x, hotOnly)
  }

  function CreditStamps(s: State, hotOnly: bool): set<Time> {
    set x | x in ItemsOf(s) && x.Credited? && Shown(x, hotOnly) :: x.Stamp()
  }

  function FinalRowStamps(s: State): set<Time> { set a | a in FinalRows(s.rows) :: a.processedAt }

  /** The latest credited stamp, or without any credit the latest stamp of any row. */
  function SnapshotVersion(s: State, hotOnly: bool): Time {
    if CreditStamps(s, hotOnly) == {} then MaxOrEpoch(FinalRowStamps(s))
    else Max(CreditStamps(s, hotOnly))
  }

  ghost function ReportOf(s: State, c: Id, offset: Time, hotOnly: bool): Report {
    var group := OfCampaign(ItemsOf(s), c, hotOnly);
    Report(ServedMaxIngest(s) + offset, c, Sum(group, Spend), Sum(group, Revenue), Sum(group, Conversions),
           Sum(group, Purchases), Sum(group, Rollup.Exposures), Sum(group, SiteVisits), SnapshotVersion(s, hotOnly))
  }

  /** One row per campaign that has an exposure. */
  ghost function Snapshot(s: State, offset: Time, hotOnly: bool): set<Report> {
    set e | e in s.exposures :: ReportOf(s, e.campaignId, offset, hotOnly)
  }

  // ---------- the same, told on the rows themselves ----------

  /** The latest version among the credits that a report may show, of all campaigns; without any,
      the latest version of a row that is not superseded; without any row, the epoch. */
  ghost predicate IsSnapshotVersion(s: State, hotOnly: bool, v: Time) {
    var cs := CreditsTo(s.rows, s.exposures, hotOnly);
    if cs != {} then
      (forall c :: c in cs ==> c.0.processedAt <= v) && exists c :: c in cs && c.0.processedAt == v
    else
      && (forall a :: a in s.rows && !Superseded(a, s.rows) ==> a.processedAt <= v)
      && (|| (exists a :: a in s.rows && !Superseded(a, s.rows) && a.processedAt == v)
          || (v == 0 && forall a :: a in s.rows ==> Superseded(a, s.rows)))
  }

  /** A report row: what the campaign showed, and the credits to that, hot ones only if asked. */
  ghost predicate IsReport(r: Report, s: State, offset: Time, hotOnly: bool) {
    var es := set e | e in s.exposures && e.campaignId == r.campaign;
    && AddsUp(es, CreditsTo(s.rows, es, hotOnly), r.spend, r.exposures, r.conversions, r.purchases, r.siteVisits,
              r.revenue)
    && r.reportedAt == ServedMaxIngest(s) + offset
    && IsSnapshotVersion(s, hotOnly, r.version)
  }

  lemma CampaignMeaning(s: State, c: Id, hotOnly: bool)
    ensures var es := set e | e in s.exposures && e.campaignId == c;
      && ExposuresIn(OfCampaign(ItemsOf(s), c, hotOnly)) == es
      && CreditsIn(OfCampaign(ItemsOf(s), c, hotOnly)) == CreditsTo(s.rows, es, hotOnly)
  {
    hide ItemsOf, Superseded;
    var group, es := OfCampaign(ItemsOf(s), c, hotOnly), set e | e in s.exposures && e.campaignId == c;
    forall e ensures e in ExposuresIn(group) <==> e in es {
      AiredItem(s, e);
      assert Aired(e) in group ==> Aired(e).e in ExposuresIn(group);
    }
    forall a, e ensures (a, e) in CreditsIn(group) <==> (a, e) in CreditsTo(s.rows, es, hotOnly) {
      CreditedItem(s, a, e);
      if Credited(a, e) in group { assert (Credited(a, e).a, Credited(a, e).e) in CreditsIn(group); }
    }
  }

  lemma VersionMeaning(s: State, hotOnly: bool, v: Time)
    ensures IsSnapshotVersion(s, hotOnly, v) <==> v == SnapshotVersion(s, hotOnly)
  {
    hide ItemsOf, Superseded, Final, Max;
    var cs, stamps := CreditsTo(s.rows, s.exposures, hotOnly), CreditStamps(s, hotOnly);
    forall a: Attributed, e | (a, e) in cs ensures a.processedAt in stamps {
      CreditedItem(s, a, e);
      assert Credited(a, e).Stamp() in stamps;
    }
    forall t | t in stamps ensures exists c :: c in cs && c.0.processedAt == t {
      var x :| x in ItemsOf(s) && x.Credited? && Shown(x, hotOnly) && x.Stamp() == t;
      CreditedItem(s, x.a, x.e);
      assert (x.a, x.e) in cs && (x.a, x.e).0.processedAt == t;
    }
    if stamps != {} {
      var t := Member(stamps);
      MaxMeaning(stamps, v);
    } else {
      forall a ensures a in FinalRows(s.rows) <==> a in s.rows && !Superseded(a, s.rows) { FinalMeaning(s.rows, a); }
      var all := FinalRowStamps(s);
      forall a | a in FinalRows(s.rows) ensures a.processedAt in all {}
      if all != {} {
        var t := Member(all);
        MaxMeaning(all, v);
      }
    }
  }

  lemma MaxMeaning(s: set<Time>, v: Time)
    requires s != {}
    ensures v == Max(s) <==> v in s && forall x :: x in s ==> x <= v
  {
  }

  /** A snapshot holds exactly those rows, one for every campaign that has an exposure. */
  lemma SnapshotMeaning(s: State, offset: Time, hotOnly: bool)
    ensures forall r :: r in Snapshot(s, offset, hotOnly) <==>
              IsReport(r, s, offset, hotOnly) && exists e :: e in s.exposures && e.campaignId == r.campaign
    ensures forall e :: e in s.exposures ==>
              exists r :: r in Snapshot(s, offset, hotOnly) && r.campaign == e.campaignId
  {
    hide IsReport, ReportOf;
    forall r ensures IsReport(r, s, offset, hotOnly) <==> r == ReportOf(s, r.campaign, offset, hotOnly) {
      ReportMeaning(s, offset, hotOnly, r);
    }
    forall e | e in s.exposures
      ensures ReportOf(s, e.campaignId, offset, hotOnly) in Snapshot(s, offset, hotOnly)
      ensures ReportOf(s, e.campaignId, offset, hotOnly).campaign == e.campaignId
    {
      ReportCampaign(s, e.campaignId, offset, hotOnly);
    }
  }

  ghost function ReportedConversions(reports: set<Report>): nat {
    if reports == {} then 0
    else
      var r :| r in reports;
      r.conversions + ReportedConversions(reports - {r})
  }

  lemma {:induction false} ReportedConversionsOf(reports: set<Report>, r: Report)
    requires r in reports
    ensures ReportedConversions(reports) == r.conversions + ReportedConversions(reports - {r})
    decreases |reports|
  {
    var q :| q in reports && ReportedConversions(reports) == q.conversions + ReportedConversions(reports - {q});
    if q != r {
      ReportedConversionsOf(reports - {q}, r);
      ReportedConversionsOf(reports - {r}, q);
      assert reports - {q} - {r} == reports - {r} - {q};
    }
  }

  ghost function CreditsOfCampaign(credits: set<(Attributed, Exposure)>, c: Id): set<(Attributed, Exposure)> {
    set x | x in credits && x.1.campaignId == c
  }

  /** One report per campaign, each with the number of its credits. */
  ghost predicate ReportsCredits(reports: set<Report>, credits: set<(Attributed, Exposure)>) {
    && (forall r :: r in reports ==> r.conversions == |CreditsOfCampaign(credits, r.campaign)|)
    && (forall r, q :: r in reports && q in reports && r.campaign == q.campaign ==> r == q)
    && (forall x :: x in credits ==> exists r :: r in reports && r.campaign == x.1.campaignId)
  }

  lemma {:induction false} ReportsAddUp(reports: set<Report>, credits: set<(Attributed, Exposure)>)
    requires ReportsCredits(reports, credits)
    ensures ReportedConversions(reports) == |credits|
    decreases |reports|
  {
    hide ReportedConversions;
    if reports == {} {
      assert credits == {};
      NothingReported();
    } else {
      var r := Member(reports);
      var own := CreditsOfCampaign(credits, r.campaign);
      var rest, left := reports - {r}, credits - own;
      forall q | q in rest ensures CreditsOfCampaign(left, q.campaign) == CreditsOfCampaign(credits, q.campaign) {
        SameMembers(CreditsOfCampaign(left, q.campaign), CreditsOfCampaign(credits, q.campaign));
      }
      ReportsAddUp(rest, left);
      ReportedConversionsOf(reports, r);
      assert own <= credits && |left| == |credits| - |own|;
    }
  }

  lemma NothingReported()
    ensures ReportedConversions({}) == 0
  {
  }

  /** Over all campaigns a snapshot reports every credit that it may show, once. */
  lemma SnapshotReportsAll(s: State, offset: Time, hotOnly: bool)
    ensures ReportedConversions(Snapshot(s, offset, hotOnly)) == |CreditsTo(s.rows, s.exposures, hotOnly)|
  {
    hide IsReport, ReportOf, CreditsTo, CreditsOfCampaign;
    var reports, credits := Snapshot(s, offset, hotOnly), CreditsTo(s.rows, s.exposures, hotOnly);
    SnapshotMeaning(s, offset, hotOnly);
    forall r | r in reports
      ensures r.conversions == |CreditsOfCampaign(credits, r.campaign)| && r == ReportOf(s, r.campaign, offset, hotOnly)
    {
      ReportMeaning(s, offset, hotOnly, r);
      ReportedCredits(s, offset, hotOnly, r);
    }
    forall x | x in credits ensures exists r :: r in reports && r.campaign == x.1.campaignId {
      CreditsToThem(s, hotOnly, x);
    }
    ReportsAddUp(reports, credits);
  }

  lemma CreditsToThem(s: State, hotOnly: bool, x: (Attributed, Exposure))
    requires x in CreditsTo(s.rows, s.exposures, hotOnly)
    ensures x.1 in s.exposures
  {
  }

  lemma ReportedCredits(s: State, offset: Time, hotOnly: bool, r: Report)
    requires IsReport(r, s, offset, hotOnly)
    ensures r.conversions == |CreditsOfCampaign(CreditsTo(s.rows, s.exposures, hotOnly), r.campaign)|
  {
    hide Superseded, IsSnapshotVersion, ServedMaxIngest, TotalSpend, TotalRevenue, OfType;
    var es := set e | e in s.exposures && e.campaignId == r.campaign;
    var own := CreditsOfCampaign(CreditsTo(s.rows, s.exposures, hotOnly), r.campaign);
    SameMembers(CreditsTo(s.rows, es, hotOnly), own);
  }

  lemma ReportCampaign(s: State, c: Id, offset: Time, hotOnly: bool)
    ensures ReportOf(s, c, offset, hotOnly).campaign == c
  {
  }

  lemma ReportMeaning(s: State, offset: Time, hotOnly: bool, r: Report)
    ensures IsReport(r, s, offset, hotOnly) <==> r == ReportOf(s, r.campaign, offset, hotOnly)
  {
    hide Sum, ItemsOf, SnapshotVersion, IsSnapshotVersion, ServedMaxIngest, OfCampaign, ExposuresIn, CreditsIn,
         CreditsTo, TotalSpend, TotalRevenue, OfType;
    CampaignMeaning(s, r.campaign, hotOnly);
    SumsMean(OfCampaign(ItemsOf(s), r.campaign, hotOnly));
    VersionMeaning(s, hotOnly, r.version);
  }

  // ---------- restatement is one-sided ----------

  /** The hot-only aggregate of a campaign is the hot pass's own, whatever has been
      recovered since. */
  lemma HotReportIsInvariant(i: Input, s: State, c: Id)
    requires PipelineInv(i, s) && HoldsHot(i, s)
    ensures OfCampaign(ItemsOf(s), c, true) == OfCampaign(HotItems(i), c, true)
  {
    hide ItemsOf, HotItems, BothItems, HotRows, ReconRows, PublishedRow;
    ItemsLieBetween(i, s);
    forall x | x in ItemsOf(s) && x !in HotItems(i) ensures !Shown(x, true) { LateItemIsRecovered(i, x); }
  }

  /** What reconciliation adds to the aggregate is credits of recovered rows. */
  lemma LateItemIsRecovered(i: Input, x: Item)
    requires x in BothItems(i) && x !in HotItems(i)
    ensures x.Credited? && x.a in ReconRows(i) && x.a.path == Reconciled
  {
    hide HotRows, ReconRows;
    JoinedIs(HotSet(i), AllExposures(i), x);
    JoinedIs(HotSet(i) + ReconSet(i), AllExposures(i), x);
    var h := Corrects(i, x.a);
  }

  /** Restating never lowers a campaign: the hot report, in whatever state of the pipeline it
      is written, against the restated report in whatever state. At the same spend and
      exposures no measure falls. */
  lemma RestatementNeverLowers(i: Input, s: State, t: State, c: Id, m: Measure)
    requires PipelineInv(i, s) && HoldsHot(i, s) && PipelineInv(i, t) && HoldsHot(i, t)
    ensures Sum(OfCampaign(ItemsOf(s), c, true), m) <= Sum(OfCampaign(ItemsOf(t), c, false), m)
    ensures m == Spend || m == Rollup.Exposures ==>
              Sum(OfCampaign(ItemsOf(s), c, true), m) == Sum(OfCampaign(ItemsOf(t), c, false), m)
  {
    hide ItemsOf, Sum, PipelineInv, HoldsHot, HotItems;
    HotReportIsInvariant(i, s, c);
    HotReportIsInvariant(i, t, c);
    var hot, both := OfCampaign(ItemsOf(t), c, true), OfCampaign(ItemsOf(t), c, false);
    assert hot <= both && both == hot + (both - hot);
    SumUnion(hot, both - hot, m);
    if m == Spend || m == Rollup.Exposures { CreditsCostNothing(both - hot, m); }
  }

  lemma {:induction false} CreditsCostNothing(group: set<Item>, m: Measure)
    requires m == Spend || m == Rollup.Exposures
    requires forall x :: x in group ==> x.Credited?
    ensures Sum(group, m) == 0
    decreases |group|
  {
    if group != {} {
      var x := Member(group);
      SumOf(group, x, m);
      CreditsCostNothing(group - {x}, m);
    }
  }

  /** Hot credits, in any state that holds the hot pass, are stamped as the hot pass did. */
  lemma HotStamps(i: Input, s: State)
    requires PipelineInv(i, s) && HoldsHot(i, s)
    ensures CreditStamps(s, true) == set x | x in HotItems(i) && x.Credited? && Shown(x, true) :: x.Stamp()
  {
    hide ItemsOf, HotItems, PipelineInv;
    forall x ensures x in ItemsOf(s) && Shown(x, true) <==> x in HotItems(i) && Shown(x, true) {
      HotReportIsInvariant(i, s, x.e.campaignId);
      assert x in OfCampaign(ItemsOf(s), x.e.campaignId, true) <==> x in OfCampaign(HotItems(i), x.e.campaignId, true);
    }
    var hot := set x | x in HotItems(i) && x.Credited? && Shown(x, true) :: x.Stamp();
    forall t ensures t in CreditStamps(s, true) <==> t in hot {
      if t in CreditStamps(s, true) {
        var x :| x in ItemsOf(s) && x.Credited? && Shown(x, true) && x.Stamp() == t;
        assert x in HotItems(i);
      }
      if t in hot {
        var x :| x in HotItems(i) && x.Credited? && Shown(x, true) && x.Stamp() == t;
        assert x in ItemsOf(s);
      }
    }
    SameMembers(CreditStamps(s, true), hot);
  }

  /** The report as of the hot pass is rewritten identically by every later pass, provided
      the hot pass credited anything: otherwise its version falls back to rows that change. */
  lemma PreSnapshotIsInvariant(i: Input, s: State, t: State)
    requires PipelineInv(i, s) && Settled(i, s) && PipelineInv(i, t) && Settled(i, t)
    requires CreditStamps(s, true) != {}
    ensures Snapshot(s, 0, true) == Snapshot(t, 0, true)
  {
    hide ItemsOf, HotItems, PipelineInv, Settled, HotRows, ReconRows, CreditStamps, Sum, ServedMaxIngest,
         OfCampaign;
    SettledParts(i, s);
    SettledParts(i, t);
    SettledHolds(i, s);
    SettledHolds(i, t);
    HotStamps(i, s);
    HotStamps(i, t);
    ReconciledAtIsFixed(i, s);
    ReconciledAtIsFixed(i, t);
    ServedAll(i, s);
    ServedAll(i, t);
    forall c ensures ReportOf(s, c, 0, true) == ReportOf(t, c, 0, true) {
      HotReportIsInvariant(i, s, c);
      HotReportIsInvariant(i, t, c);
    }
  }

  lemma SettledParts(i: Input, s: State)
    requires PipelineInv(i, s) && Settled(i, s)
    ensures OfInput(i, s) && LakeHoldsHot(i, s) && Fresh(s, Stale({}, {}))
  {
  }

  lemma ServedAll(i: Input, s: State)
    requires PipelineInv(i, s) && HoldsHot(i, s)
    ensures s.exposures == AllExposures(i)
  {
  }

  /** The credits of a held recovery are aggregated. */
  lemma RecoveryIsAggregated(i: Input, s: State, x: Attributed) returns (e: Exposure)
    requires PipelineInv(i, s) && HoldsHot(i, s) && HoldsRecon(i, s) && x in ReconRows(i)
    ensures Credited(x, e) in ItemsOf(s) && Credited(x, e) in BothItems(i)
    ensures x in FinalRows(s.rows) && x.attributed && x.processedAt == ReconciledAt(i)
  {
    hide ItemsOf, HotItems, BothItems, PublishedRow, HotRows, ReconRows, Fresh, FromLake;
    e := RecoveryHasExposure(i, x);
    var h := Corrects(i, x);
    ItemsLieBetween(i, s);
    InBoth(i, x, e);
    FinalOfItem(s, x, e);
  }

  lemma InBoth(i: Input, x: Attributed, e: Exposure)
    requires x in ReconRows(i) && e in i.exposures && Credits(x, e)
    ensures Credited(x, e) in BothItems(i)
  {
    hide HotRows, ReconRows;
    JoinedIs(HotSet(i) + ReconSet(i), AllExposures(i), Credited(x, e));
  }

  lemma PostVersion(i: Input, s: State, x: Attributed)
    requires PipelineInv(i, s) && HoldsHot(i, s) && HoldsRecon(i, s) && x in ReconRows(i)
    ensures SnapshotVersion(s, false) == ReconciledAt(i)
  {
    hide ItemsOf, HotItems, BothItems, PublishedRow, HotRows, ReconRows, FromLake, Max, HoldsHot, HoldsRecon,
         ReconciledAt;
    var e := RecoveryIsAggregated(i, s, x);
    ItemsLieBetween(i, s);
    assert Credited(x, e).Stamp() in CreditStamps(s, false);
    forall z | z in ItemsOf(s) ensures z.Stamp() <= ReconciledAt(i) { NothingIsNewer(i, z); }
    MaxIs(CreditStamps(s, false), ReconciledAt(i));
  }

  lemma NewestRow(i: Input, s: State, x: Attributed)
    requires PipelineInv(i, s) && HoldsHot(i, s) && HoldsRecon(i, s) && x in ReconRows(i)
    ensures MaxOrEpoch(FinalRowStamps(s)) == ReconciledAt(i)
  {
    hide ItemsOf, HotItems, BothItems, PublishedRow, HotRows, ReconRows, Max, HoldsHot, HoldsRecon, ReconciledAt,
         FromLake;
    var e := RecoveryIsAggregated(i, s, x);
    assert x.processedAt in FinalRowStamps(s);
    InServingInLake(s);
    forall a | a in s.rows ensures a.processedAt <= ReconciledAt(i) { RowIsNotNewer(i, a); }
    MaxIs(FinalRowStamps(s), ReconciledAt(i));
  }

  lemma InServingInLake(s: State)
    requires FromLake(s)
    ensures forall a :: a in s.rows ==> a in s.lakeRows
  {
  }

  /** After recoveries the restated report is versioned above the hot one, unless the hot
      pass credited nothing; then both carry the same version. */
  lemma SnapshotVersions(i: Input, s: State)
    requires PipelineInv(i, s) && Settled(i, s) && HoldsRecon(i, s) && ReconRows(i) != []
    ensures SnapshotVersion(s, false) == ReconciledAt(i)
    ensures CreditStamps(s, true) != {} ==> SnapshotVersion(s, true) < ReconciledAt(i)
    ensures CreditStamps(s, true) == {} ==> SnapshotVersion(s, true) == ReconciledAt(i)
  {
    hide ItemsOf, HotItems, BothItems, PipelineInv, HotRows, ReconRows, Max, HoldsHot, HoldsRecon, ReconciledAt,
         CreditStamps, FinalRowStamps, Final;
    var x := ReconRows(i)[0];
    FirstIn(ReconRows(i));
    SettledParts(i, s);
    SettledHolds(i, s);
    PostVersion(i, s, x);
    NewestRow(i, s, x);
    if CreditStamps(s, true) != {} { PreVersion(i, s, x); }
  }

  lemma PreVersion(i: Input, s: State, x: Attributed)
    requires PipelineInv(i, s) && HoldsHot(i, s) && HoldsRecon(i, s) && x in ReconRows(i) && CreditStamps(s, true) != {}
    ensures Max(CreditStamps(s, true)) < ReconciledAt(i)
  {
    hide ItemsOf, HotItems, BothItems, PipelineInv, HotRows, ReconRows, Max, HoldsHot, HoldsRecon, ReconciledAt,
         CreditStamps, Final;
    var e := RecoveryIsAggregated(i, s, x);
    HotStamps(i, s);
    MaxIsMember(CreditStamps(s, true));
    var t := Max(CreditStamps(s, true));
    var z :| z in HotItems(i) && z.Credited? && Shown(z, true) && z.Stamp() == t;
    NewerThanHot(i, z, x, e);
  }

  lemma NewerThanHot(i: Input, z: Item, x: Attributed, e: Exposure)
    requires z in HotItems(i) && x in ReconRows(i) && Credited(x, e) in BothItems(i)
    ensures z.Stamp() < ReconciledAt(i)
  {
    hide HotRows, ReconRows, ReconciledAt;
    var h := Corrects(i, x);
    RecoveredIsNotHot(i, x);
    JoinedIs(HotSet(i), AllExposures(i), Credited(x, e));
    ReconIsNewest(i, z, Credited(x, e));
  }

  lemma FinalOfItem(s: State, x: Attributed, e: Exposure)
    requires Credited(x, e) in ItemsOf(s)
    ensures x in FinalRows(s.rows)
  {
    ItemIs(s.rows, s.exposures, Credited(x, e));
  }

  lemma RowIsNotNewer(i: Input, a: Attributed)
    requires a in HotRows(i) || a in ReconRows(i)
    ensures a.processedAt <= ReconciledAt(i)
  {
    hide HotRows, ReconRows, LatestRowIngest, LatestIngest;
    HotIs(i);
    LatestRowIngestIs(HotRows(i));
    if a in ReconRows(i) { var h := Corrects(i, a); }
  }

  lemma MaxIs(s: set<Time>, top: Time)
    requires top in s && forall x :: x in s ==> x <= top
    ensures s != {} && Max(s) == top
  {
  }

  lemma MaxIsMember(s: set<Time>)
    requires s != {}
    ensures Max(s) in s
  {
  }

  // ---------- and accounted for ----------

  /** A recovered row credits an exposure that exists. */
  lemma RecoveryHasExposure(i: Input, x: Attributed) returns (e: Exposure)
    requires x in ReconRows(i)
    ensures e in i.exposures && Credits(x, e)
  {
    hide HotRows, ReconRows, LastTouch, AllByHousehold, ExpandRow;
    var h := Corrects(i, x);
    var held := AllByHousehold(i.exposures);
    RecoveredFrom(ExpandRow(h), held, LONG_WINDOW, CandidatesFor(ExpandRow(h), h.Cid()), ReconciledAt(i));
    CreditMeaning(Bucket(held, x.res.householdId), x.res, LONG_WINDOW, CandidatesFor(ExpandRow(h), h.Cid()));
    e :| e in Bucket(held, x.res.householdId) && e.exposureId == x.exposureId.value;
    AllByHouseholdIs(i.exposures, x.res.householdId, e);
  }

  /** With unique exposure ids, the credits of a set of rows are as many as the rows. */
  lemma {:induction false} OneCreditEach(i: Input, rows: set<Attributed>)
    requires UniqueExposures(i.exposures) && forall x :: x in rows ==> x in ReconRows(i)
    ensures Sum(CreditsOf(i, rows), Conversions) == |rows|
    decreases |rows|
  {
    hide ReconRows, Sum;
    if rows == {} {
      assert CreditsOf(i, rows) == {};
      NoItemsNoSum(Conversions);
    } else {
      var x := Member(rows);
      var e := RecoveryHasExposure(i, x);
      OneCreditEach(i, rows - {x});
      forall f | f in i.exposures && Credits(x, f) ensures f == e {}
      assert CreditsOf(i, rows) - {Credited(x, e)} == CreditsOf(i, rows - {x});
      assert Credited(x, e) in CreditsOf(i, rows);
      SumOf(CreditsOf(i, rows), Credited(x, e), Conversions);
    }
  }

  ghost function CreditsOf(i: Input, rows: set<Attributed>): set<Item> {
    set x, e | x in rows && e in i.exposures && Credits(x, e) :: Credited(x, e)
  }

  lemma NoItemsNoSum(m: Measure)
    ensures Sum({}, m) == 0
  {
  }

  /** Total credited conversions rise by exactly the number of rows recovered. */
  lemma RestatementIsAccountedFor(i: Input)
    requires UniqueExposures(i.exposures)
    ensures Sum(BothItems(i), Conversions) == Sum(HotItems(i), Conversions) + |ReconRows(i)|
  {
    hide HotRows, ReconRows, Sum, Joined;
    var added := CreditsOf(i, ReconSet(i));
    forall x
      ensures x in added ==> x !in HotItems(i)
      ensures x in BothItems(i) <==> x in HotItems(i) || x in added
    {
      JoinedIs(HotSet(i), AllExposures(i), x);
      JoinedIs(HotSet(i) + ReconSet(i), AllExposures(i), x);
      if x in added { var h := Corrects(i, x.a); HotIs(i); }
    }
    assert BothItems(i) == HotItems(i) + added;
    SumUnion(HotItems(i), added, Conversions);
    OneCreditEach(i, ReconSet(i));
    RecoveredAreDistinct(i);
  }

  lemma RecoveredAreDistinct(i: Input)
    ensures |ReconSet(i)| == |ReconRows(i)|
  {
    hide HotRows, LakeCandidates, PassOver;
    PassOnce(LakeCandidates(HotRows(i)), i.exposures, LONG_WINDOW, ReconciledAt(i));
    DistinctCount(ReconRows(i));
  }

  lemma {:induction false} DistinctCount<T>(s: seq<T>)
    requires Distinct(s)
    ensures |set x | x in s| == |s|
  {
    if s != [] {
      DistinctCount(Init(s));
      assert s == Init(s) + [Last(s)];
      assert (set x | x in s) == (set x | x in Init(s)) + {Last(s)};
    }
  }

  // ---------- hours add up ----------

  function HourlyMeasure(h: Hourly, m: Measure): nat {
    match m
    case Spend => h.spend
    case Exposures => h.exposures
    case Conversions => h.conversions
    case Purchases => h.purchases
    case SiteVisits => h.siteVisits
    case Revenue => h.revenue
  }

  ghost function SumHours(rows: set<Hourly>, m: Measure): nat {
    if rows == {} then 0
    else
      var h :| h in rows;
      HourlyMeasure(h, m) + SumHours(rows - {h}, m)
  }

  lemma {:induction false} SumHoursOf(rows: set<Hourly>, h: Hourly, m: Measure)
    requires h in rows
    ensures SumHours(rows, m) == HourlyMeasure(h, m) + SumHours(rows - {h}, m)
    decreases |rows|
  {
    var j :| j in rows && SumHours(rows, m) == HourlyMeasure(j, m) + SumHours(rows - {j}, m);
    if j != h {
      SumHoursOf(rows - {j}, h, m);
      SumHoursOf(rows - {h}, j, m);
      assert rows - {j} - {h} == rows - {h} - {j};
    }
  }

  /** Summing a rollup over all its rows gives the total over everything it aggregates. */
  lemma {:induction false} HoursAddUp(items: set<Item>, m: Measure)
    ensures SumHours(Rebuild(items), m) == Sum(items, m)
    decreases |items|
  {
    hide Sum, SumHours, RowOf, Rebuild;
    if items == {} {
      assert Rebuild({}) == {} by { NothingToRebuild(); }
      NoItemsNoSum(m);
      assert SumHours({}, m) == 0 by { NoHoursNoSum(m); }
    } else {
      var x := Member(items);
      var group := Peers(items, x);
      var rest, row := items - group, RowOf(x.Key(), group);
      forall h ensures h in Rebuild(items) - {row} <==> h in Rebuild(rest) {
        RebuildIs(items, h);
        RebuildIs(rest, h);
        RowKey(x.Key(), group);
        assert ItemsAt(rest, h.key) == if h.key == x.Key() then {} else ItemsAt(items, h.key);
      }
      RebuildIs(items, row);
      RowKey(x.Key(), group);
      assert Rebuild(items) - {row} == Rebuild(rest);
      SumHoursOf(Rebuild(items), row, m);
      RowMeasures(x.Key(), group, m);
      SmallerRest(items, group, x);
      HoursAddUp(rest, m);
      assert items == rest + group;
      SumUnion(rest, group, m);
    }
  }

  lemma SmallerRest(items: set<Item>, group: set<Item>, x: Item)
    requires x in items && x in group
    ensures |items - group| < |items|
  {
    Smaller(items - group, items - {x});
  }

  lemma NothingToRebuild()
    ensures Rebuild({}) == {}
  {
  }

  lemma NoHoursNoSum(m: Measure)
    ensures SumHours({}, m) == 0
  {
  }

  lemma RowMeasures(k: Key, group: set<Item>, m: Measure)
    requires group != {}
    ensures HourlyMeasure(RowOf(k, group), m) == Sum(group, m)
  {
    hide Sum, MaxStamp;
  }

  /** The rows that a reader sees of one campaign. */
  ghost function HoursOf(s: State, c: Id): set<Hourly> { set h | h in FinalHourly(s.hourly) && h.key.campaign == c }

  /** The served rollup of a campaign, summed over its hours, is its post report. */
  lemma RollupAgreesWithReport(s: State, c: Id, m: Measure)
    requires Exact(s)
    ensures SumHours(HoursOf(s, c), m) == Sum(OfCampaign(ItemsOf(s), c, false), m)
  {
    hide ItemsOf, Sum, SumHours, RowOf, Rebuild, Final;
    var own := OfCampaign(ItemsOf(s), c, false);
    forall h ensures (h in Rebuild(ItemsOf(s)) && h.key.campaign == c) <==> h in Rebuild(own) {
      RebuildIs(ItemsOf(s), h);
      RebuildIs(own, h);
      assert ItemsAt(own, h.key) == if h.key.campaign == c then ItemsAt(ItemsOf(s), h.key) else {};
    }
    assert HoursOf(s, c) == Rebuild(own);
    HoursAddUp(own, m);
  }
}
