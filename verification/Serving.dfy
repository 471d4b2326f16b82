/** The serving tables as a state machine over the lake (lake/load_serving.py,
    reconcile/rollup.py, orchestration/replay.py): landings, day loads, rollup refreshes,
    compactions, truncations, and crashes in the middle of them. */
module Serving {
  import opened Rows
  import opened Orders
  import opened Collapse
  import opened Lateness
  import opened Lake
  import opened Rollup

  /** The lake is a list of appended rows; a serving table is the set of inserted rows. */
  datatype State = State(lakeExposures: seq<Exposure>, lakeRows: seq<Attributed>,
                         exposures: set<Exposure>, rows: set<Attributed>,
                         dirty: set<Stamp>, refreshed: set<Stamp>, hourly: set<Hourly>)

  /** What a replay truncates, in this order. Of `eval_meta` nothing else is modelled. */
  datatype ServingTable =
    | ExposuresLanded
    | AttributedConversions
    | EvalMeta
    | CampaignHourly
    | RollupDirty
    | RollupRefreshed

  const SERVING_TABLES: seq<ServingTable> :=
    [ExposuresLanded, AttributedConversions, EvalMeta, CampaignHourly, RollupDirty, RollupRefreshed]

  datatype Step =
    | LandExposures(newExposures: seq<Exposure>)
    | LandRows(newRows: seq<Attributed>)
    | Compact(compactedExposures: seq<Exposure>, compactedRows: seq<Attributed>)
    | LoadExposures(day: int)
    | LoadRows(day: int)
    | CrashInLoadExposures(day: int, insertedExposures: set<Exposure>, recorded: set<Stamp>)
    | CrashInLoadRows(day: int, insertedRows: set<Attributed>, recorded: set<Stamp>)
    | Refresh
    | CrashInRefresh(insertedHourly: set<Hourly>)
    | TruncateTable(table: ServingTable)
    | Truncate         // all six

  /** What the rollup aggregates now. */
  function ItemsOf(s: State): set<Item> { Items(s.rows, s.exposures) }

  function EventDay(e: Exposure): int { DayOf(e.eventTime) }

  /** What one day's load inserts: the distinct exposures, and the current rows. */
  function DayExposures(s: State, day: int): set<Exposure> { set e | e in s.lakeExposures && EventDay(e) == day }
  function DayRows(s: State, day: int): set<Attributed> { set a | a in ReadCurrent(OnDay(s.lakeRows, day)) }

  /** What the three recording queries group. */
  function AiredOn(items: set<Item>, day: int): set<Item> {
    set i | i in items && i.Aired? && EventDay(i.e) == day
  }
  function CreditedToDay(items: set<Item>, day: int): set<Item> {
    set i | i in items && i.Credited? && EventDay(i.e) == day
  }
  function CreditedOn(items: set<Item>, day: int): set<Item> {
    set i | i in items && i.Credited? && i.a.Day() == day
  }

  /** What a day's load records of the state its insert leaves. */
  function ExposureStamps(s: State, day: int): set<Stamp> {
    Recorded(AiredOn(ItemsOf(s), day)) + Recorded(CreditedToDay(ItemsOf(s), day))
  }
  function RowStamps(s: State, day: int): set<Stamp> { Recorded(CreditedOn(ItemsOf(s), day)) }

  function WithExposures(s: State, inserted: set<Exposure>): State { s.(exposures := s.exposures + inserted) }
  function WithRows(s: State, inserted: set<Attributed>): State { s.(rows := s.rows + inserted) }
  function WithDirty(s: State, recorded: set<Stamp>): State { s.(dirty := s.dirty + recorded) }

  /** The dirty keys with their versions, and the rows that a refresh inserts for them. */
  function DirtyNow(s: State): set<Stamp> { DirtyKeys(s.dirty, s.refreshed) }
  function StampedKeys(stamps: set<Stamp>): set<Key> { set d | d in stamps :: d.key }
  ghost function Recomputed(s: State): set<Hourly> {
    Rebuild(Items(s.rows, Only(s.exposures, StampedKeys(DirtyNow(s)))))
  }

  ghost function Next(s: State, step: Step): State {
    match step
    case LandExposures(added) => s.(lakeExposures := s.lakeExposures + added)
    case LandRows(added) => s.(lakeRows := s.lakeRows + added)
    case Compact(x, r) => s.(lakeExposures := x, lakeRows := r)
    case LoadExposures(day) =>
      var t := WithExposures(s, DayExposures(s, day));
      WithDirty(t, ExposureStamps(t, day))
    case LoadRows(day) =>
      var t := WithRows(s, DayRows(s, day));
      WithDirty(t, RowStamps(t, day))
    case CrashInLoadExposures(_, inserted, recorded) => WithDirty(WithExposures(s, inserted), recorded)
    case CrashInLoadRows(_, inserted, recorded) => WithDirty(WithRows(s, inserted), recorded)
    case Refresh =>
      s.(hourly := s.hourly + Recomputed(s), refreshed := s.refreshed + DirtyNow(s))
    case CrashInRefresh(inserted) => s.(hourly := s.hourly + inserted)
    case TruncateTable(table) => Emptied(s, table)
    case Truncate => State(s.lakeExposures, s.lakeRows, {}, {}, {}, {}, {})
  }

  function Emptied(s: State, table: ServingTable): State {
    match table
    case ExposuresLanded => s.(exposures := {})
    case AttributedConversions => s.(rows := {})
    case EvalMeta => s
    case CampaignHourly => s.(hourly := {})
    case RollupDirty => s.(dirty := {})
    case RollupRefreshed => s.(refreshed := {})
  }

  // ---------- what a reconciliation reads ----------

  /** `max` of a column; ClickHouse's maximum of no rows is the epoch. */
  function MaxOrEpoch(s: set<Time>): Time { if s == {} then 0 else Max(s) }

  function ExposureIngests(s: State): set<Time> { set e | e in s.exposures :: e.ingestTime }
  function RowIngests(s: State): set<Time> { set a | a in FinalRows(s.rows) :: a.res.IngestTime() }

  /** `max(ingest_time)` over FINAL of both serving tables. */
  function ServedMaxIngest(s: State): Time {
    var x, y := MaxOrEpoch(ExposureIngests(s)), MaxOrEpoch(RowIngests(s));
    if x > y then x else y
  }

  /** On the fields of the rows. */
  lemma ServedMaxIngestMeaning(s: State)
    ensures forall e :: e in s.exposures ==> e.ingestTime <= ServedMaxIngest(s)
    ensures forall a :: a in s.rows && !Superseded(a, s.rows) ==> a.res.conv.ingestTime <= ServedMaxIngest(s)
    ensures || (exists e :: e in s.exposures && e.ingestTime == ServedMaxIngest(s))
            || (exists a :: a in s.rows && !Superseded(a, s.rows) && a.res.conv.ingestTime == ServedMaxIngest(s))
            || (ServedMaxIngest(s) == 0
                && (s.exposures == {} || forall a :: a in s.rows ==> Superseded(a, s.rows)))
  {
    hide Superseded, Final;
    forall a ensures a in FinalRows(s.rows) <==> a in s.rows && !Superseded(a, s.rows) { FinalMeaning(s.rows, a); }
    forall e | e in s.exposures ensures e.ingestTime in ExposureIngests(s) {}
    forall a | a in FinalRows(s.rows) ensures a.res.conv.ingestTime in RowIngests(s) {}
    var x, y := MaxOrEpoch(ExposureIngests(s)), MaxOrEpoch(RowIngests(s));
    if ExposureIngests(s) != {} && ServedMaxIngest(s) == x {
      var e :| e in s.exposures && e.ingestTime == x;
    } else if RowIngests(s) != {} && ServedMaxIngest(s) == y {
      var a :| a in FinalRows(s.rows) && a.res.IngestTime() == y;
      assert a in s.rows && !Superseded(a, s.rows) && a.res.conv.ingestTime == y;
    }
  }

  /** `d` is the latest stamp that the exposures of its hour that aired on `day` bring. */
  ghost predicate LatestAired(s: State, day: int, d: Stamp) {
    && (exists e :: e in s.exposures && HourHolds(d.key, e) && e.ingestTime == d.version
                    && day * 86_400_000 <= e.eventTime < (day + 1) * 86_400_000)
    && (forall e :: e in s.exposures && HourHolds(d.key, e)
                     && day * 86_400_000 <= e.eventTime < (day + 1) * 86_400_000 ==>
          e.ingestTime <= d.version)
  }

  /** The same of the credits to those exposures. */
  ghost predicate LatestCreditedTo(s: State, day: int, d: Stamp) {
    var cs := CreditsTo(s.rows, s.exposures, false);
    && (exists c :: c in cs && HourHolds(d.key, c.1) && c.0.processedAt == d.version
                    && day * 86_400_000 <= c.1.eventTime < (day + 1) * 86_400_000)
    && (forall c :: c in cs && HourHolds(d.key, c.1)
                     && day * 86_400_000 <= c.1.eventTime < (day + 1) * 86_400_000 ==>
          c.0.processedAt <= d.version)
  }

  /** And of the credits of conversions of that day. */
  ghost predicate LatestCreditedOn(s: State, day: int, d: Stamp) {
    var cs := CreditsTo(s.rows, s.exposures, false);
    && (exists c :: c in cs && HourHolds(d.key, c.1) && c.0.processedAt == d.version
                    && day * 86_400_000 <= c.0.res.conv.eventTime < (day + 1) * 86_400_000)
    && (forall c :: c in cs && HourHolds(d.key, c.1)
                     && day * 86_400_000 <= c.0.res.conv.eventTime < (day + 1) * 86_400_000 ==>
          c.0.processedAt <= d.version)
  }

  /** What a day's load records. */
  lemma DayStampsMean(s: State, day: int, d: Stamp)
    ensures d in ExposureStamps(s, day) <==> LatestAired(s, day, d) || LatestCreditedTo(s, day, d)
    ensures d in RowStamps(s, day) <==> LatestCreditedOn(s, day, d)
  {
    hide Recorded, ItemsOf, CreditsTo, HourHolds, AiredOn, CreditedToDay, CreditedOn, IsLatestStamp, LatestAired,
         LatestCreditedTo, LatestCreditedOn;
    RecordedMeaning(AiredOn(ItemsOf(s), day), d);
    RecordedMeaning(CreditedToDay(ItemsOf(s), day), d);
    RecordedMeaning(CreditedOn(ItemsOf(s), day), d);
    AiredStamps(s, day, d);
    CreditedToStamps(s, day, d);
    CreditedOnStamps(s, day, d);
  }

  lemma AiredStamps(s: State, day: int, d: Stamp)
    ensures IsLatestStamp(AiredOn(ItemsOf(s), day), d) <==> LatestAired(s, day, d)
  {
    hide ItemsOf, HourHolds;
    var group := AiredOn(ItemsOf(s), day);
    forall e ensures Aired(e) in group <==>
                     e in s.exposures && day * 86_400_000 <= e.eventTime < (day + 1) * 86_400_000
    {
      AiredItem(s, e);
      CalendarIs(e.eventTime, day);
    }
    if LatestAired(s, day, d) {
      var e :| e in s.exposures && HourHolds(d.key, e) && e.ingestTime == d.version
               && day * 86_400_000 <= e.eventTime < (day + 1) * 86_400_000;
      assert Aired(e) in group && HourHolds(d.key, Aired(e).e);
    }
    if IsLatestStamp(group, d) {
      forall e | e in s.exposures && HourHolds(d.key, e) && day * 86_400_000 <= e.eventTime < (day + 1) * 86_400_000
        ensures e.ingestTime <= d.version
      {
        assert Aired(e) in group && HourHolds(d.key, Aired(e).e);
      }
    }
  }

  lemma AiredItem(s: State, e: Exposure)
    ensures Aired(e) in ItemsOf(s) <==> e in s.exposures
  {
    ItemIs(s.rows, s.exposures, Aired(e));
  }

  lemma CreditedItem(s: State, a: Attributed, e: Exposure)
    ensures Credited(a, e) in ItemsOf(s) <==> (a, e) in CreditsTo(s.rows, s.exposures, false)
  {
    ItemsMean(s.rows, s.exposures, a, e);
  }

  lemma CreditedToStamps(s: State, day: int, d: Stamp)
    ensures IsLatestStamp(CreditedToDay(ItemsOf(s), day), d) <==> LatestCreditedTo(s, day, d)
  {
    hide ItemsOf, HourHolds, CreditsTo;
    var group, cs := CreditedToDay(ItemsOf(s), day), CreditsTo(s.rows, s.exposures, false);
    forall a, e ensures Credited(a, e) in group <==>
                        (a, e) in cs && day * 86_400_000 <= e.eventTime < (day + 1) * 86_400_000
    {
      CreditedItem(s, a, e);
      CalendarIs(e.eventTime, day);
    }
    if LatestCreditedTo(s, day, d) {
      var c :| c in cs && HourHolds(d.key, c.1) && c.0.processedAt == d.version
               && day * 86_400_000 <= c.1.eventTime < (day + 1) * 86_400_000;
      assert Credited(c.0, c.1) in group && HourHolds(d.key, Credited(c.0, c.1).e);
    }
    if IsLatestStamp(group, d) {
      forall c | c in cs && HourHolds(d.key, c.1) && day * 86_400_000 <= c.1.eventTime < (day + 1) * 86_400_000
        ensures c.0.processedAt <= d.version
      {
        assert Credited(c.0, c.1) in group && HourHolds(d.key, Credited(c.0, c.1).e);
      }
    }
  }

  lemma CreditedOnStamps(s: State, day: int, d: Stamp)
    ensures IsLatestStamp(CreditedOn(ItemsOf(s), day), d) <==> LatestCreditedOn(s, day, d)
  {
    hide ItemsOf, HourHolds, CreditsTo;
    var group, cs := CreditedOn(ItemsOf(s), day), CreditsTo(s.rows, s.exposures, false);
    forall a, e ensures Credited(a, e) in group <==>
                        (a, e) in cs && day * 86_400_000 <= a.res.conv.eventTime < (day + 1) * 86_400_000
    {
      CreditedItem(s, a, e);
      CalendarIs(a.res.conv.eventTime, day);
    }
    if LatestCreditedOn(s, day, d) {
      var c :| c in cs && HourHolds(d.key, c.1) && c.0.processedAt == d.version
               && day * 86_400_000 <= c.0.res.conv.eventTime < (day + 1) * 86_400_000;
      assert Credited(c.0, c.1) in group && HourHolds(d.key, Credited(c.0, c.1).e);
    }
    if IsLatestStamp(group, d) {
      forall c | c in cs && HourHolds(d.key, c.1)
                 && day * 86_400_000 <= c.0.res.conv.eventTime < (day + 1) * 86_400_000
        ensures c.0.processedAt <= d.version
      {
        assert Credited(c.0, c.1) in group && HourHolds(d.key, Credited(c.0, c.1).e);
      }
    }
  }

  // ---------- what the lake promises ----------

  /** Two versions of a conversion differ in their stamp, share their event time, and a
      credit is never superseded. */
  ghost predicate Versioned(rows: seq<Attributed>) {
    forall a, b :: a in rows && b in rows && a.Cid() == b.Cid() && a != b ==>
      && a.processedAt != b.processedAt
      && a.res.EventTime() == b.res.EventTime()
      && (a.attributed ==> b.processedAt < a.processedAt)
  }

  /** What a step may do: a landing keeps the lake consistent, a compaction keeps its rows,
      and a crash leaves a part of what the finished step would have written. A truncation of
      one table is not among the steps that keep the tables consistent with each other, only
      all six are: what a truncation leaves that crashes half way is the business of `Books`. */
  ghost predicate Possible(s: State, step: Step) {
    match step
    case LandExposures(added) => UniqueExposures(s.lakeExposures + added)
    case LandRows(added) => Versioned(s.lakeRows + added)
    case Compact(x, r) => SameSet(x, s.lakeExposures) && SameSet(r, s.lakeRows)
    case CrashInLoadExposures(day, inserted, recorded) =>
      inserted <= DayExposures(s, day) && recorded <= ExposureStamps(WithExposures(s, inserted), day)
    case CrashInLoadRows(day, inserted, recorded) =>
      inserted <= DayRows(s, day) && recorded <= RowStamps(WithRows(s, inserted), day)
    case CrashInRefresh(inserted) => inserted <= Recomputed(s)
    case TruncateTable(_) => false
    case _ => true
  }

  // ---------- invariants ----------

  /** Serving holds only rows of a consistent lake. */
  ghost predicate FromLake(s: State) {
    && UniqueExposures(s.lakeExposures) && Versioned(s.lakeRows)
    && (forall e :: e in s.exposures ==> e in s.lakeExposures)
    && (forall a :: a in s.rows ==> a in s.lakeRows)
  }

  /** Some row of the key is at least as late as the recorded version. */
  ghost predicate HasRow(items: set<Item>, d: Stamp) {
    exists i :: i in items && i.Key() == d.key && d.version <= i.Stamp()
  }

  /** A recorded version never exceeds what its key aggregates. */
  ghost predicate Backed(s: State) {
    forall d :: d in s.dirty ==> HasRow(ItemsOf(s), d)
  }

  ghost predicate HasStamp(stamps: set<Stamp>, i: Item) {
    exists d :: d in stamps && d.key == i.Key() && i.Stamp() <= d.version
  }

  /** Days whose last load crashed. */
  datatype Open = Open(exposureDays: set<int>, rowDays: set<int>)
  {
    predicate Exempts(i: Item) {
      EventDay(i.e) in exposureDays || (i.Credited? && i.a.Day() in rowDays)
    }
  }

  /** Whatever is aggregated has been recorded, unless a load that brings it is unfinished. */
  ghost predicate Covered(s: State, open: Open) {
    forall i :: i in ItemsOf(s) && !open.Exempts(i) ==> HasStamp(s.dirty, i)
  }

  /** A refreshed version was recorded, and has a rollup row at least as new. */
  ghost predicate Stamped(s: State) {
    forall r :: r in s.refreshed ==>
      r in s.dirty && exists h :: h in s.hourly && h.key == r.key && r.version <= h.reportedAt
  }

  /** A rollup row is no newer than its key, and if it is as new it is right. */
  ghost predicate Honest(s: State) {
    forall h :: h in s.hourly ==> HonestRow(s, h)
  }

  ghost predicate HonestRow(s: State, h: Hourly) {
    var group := ItemsAt(ItemsOf(s), h.key);
    group != {} && h.reportedAt <= MaxStamp(group) && (h.reportedAt == MaxStamp(group) ==> h == RowOf(h.key, group))
  }

  ghost predicate Recording(s: State, open: Open) { FromLake(s) && Backed(s) && Covered(s, open) }

  ghost predicate Inv(s: State, open: Open) { Recording(s, open) && Stamped(s) && Honest(s) }

  /** The rollup that readers see is the rollup that a whole-table rebuild would compute. */
  ghost predicate Exact(s: State) { FinalHourly(s.hourly) == Rebuild(ItemsOf(s)) }

  /** That is: the newest row of each key is the campaign hour that the two tables give, for
      every campaign hour in which something aired. */
  lemma ExactMeaning(s: State)
    ensures Exact(s) <==>
            forall h: Hourly ::
              (h in s.hourly && (forall g :: g in s.hourly && g.key == h.key ==> g.reportedAt <= h.reportedAt)) <==>
              (IsHour(h, s.rows, s.exposures) && exists e :: e in s.exposures && HourHolds(h.key, e))
  {
    hide Final, Rebuild, Items, IsHour, HourHolds;
    RebuildMeaning(s.rows, s.exposures);
    forall h: Hourly ensures h in FinalHourly(s.hourly) <==>
        h in s.hourly && forall g :: g in s.hourly && g.key == h.key ==> g.reportedAt <= h.reportedAt
    {
      FinalKeysMean({}, s.hourly, Stamp(h.key, 0), h);
    }
    if forall h: Hourly :: h in FinalHourly(s.hourly) <==> h in Rebuild(ItemsOf(s)) {
      SameMembers(FinalHourly(s.hourly), Rebuild(ItemsOf(s)));
    }
  }

  /** A key is published when the rollup holds a row as new as its data. */
  ghost predicate Published(s: State, k: Key) {
    && ItemsAt(ItemsOf(s), k) != {}
    && exists h :: h in s.hourly && h.key == k && h.reportedAt == MaxStamp(ItemsAt(ItemsOf(s), k))
  }

  /** The row that a rebuild computes for a key. */
  ghost function RowAt(s: State, k: Key): Option<Hourly> {
    var group := ItemsAt(ItemsOf(s), k);
    if group == {} then None else Some(RowOf(k, group))
  }

  /** A change to what a published key aggregates raises the key's latest stamp. */
  ghost predicate StampsRise(s: State, t: State) {
    forall k :: Published(s, k) && RowAt(t, k) != RowAt(s, k) ==>
      RowAt(t, k).Some? && RowAt(s, k).value.reportedAt < RowAt(t, k).value.reportedAt
  }

  // ---------- items only grow ----------

  lemma ItemOfState(s: State, i: Item)
    requires FromLake(s)
    ensures i in ItemsOf(s) <==> i.e in s.exposures && (i.Credited? ==> i.a in s.rows && Credits(i.a, i.e))
  {
    ItemIs(s.rows, s.exposures, i);
    if i.Credited? && i.a in s.rows && i.a.attributed {
      forall b | b in s.rows && b.Cid() == i.a.Cid() ensures b.processedAt <= i.a.processedAt {}
      assert i.a in FinalRows(s.rows);
    }
  }

  lemma ItemsGrow(s: State, t: State)
    requires FromLake(s) && FromLake(t) && s.exposures <= t.exposures && s.rows <= t.rows
    ensures ItemsOf(s) <= ItemsOf(t)
  {
    hide ItemsOf;
    forall i | i in ItemsOf(s) ensures i in ItemsOf(t) {
      ItemOfState(s, i);
      ItemOfState(t, i);
    }
  }

  lemma SmallerGroup(a: set<Item>, b: set<Item>, k: Key)
    requires a <= b && ItemsAt(a, k) != {}
    ensures ItemsAt(b, k) != {} && MaxStamp(ItemsAt(a, k)) <= MaxStamp(ItemsAt(b, k))
  {
    hide MaxStamp;
    assert ItemsAt(a, k) <= ItemsAt(b, k);
    MaxStampIs(ItemsAt(a, k));
    MaxStampIs(ItemsAt(b, k));
  }

  // ---------- one step ----------

  /** One day's load inserts the current rows of the day. */
  lemma DayRowsAre(s: State, day: int, a: Attributed)
    requires Versioned(s.lakeRows)
    ensures a in DayRows(s, day) <==> CurrentOf(s.lakeRows, a.Cid()) == Some(a) && a.Day() == day
    ensures a in DayRows(s, day) ==> a in s.lakeRows
  {
    hide ReadCurrent, OnDay;
    DayPruneIsInvariant(s.lakeRows, day, a);
    ReadCurrentIs(s.lakeRows);
  }

  lemma StepKeepsLake(s: State, step: Step)
    requires FromLake(s) && Possible(s, step)
    ensures FromLake(Next(s, step))
    ensures step != Truncate ==> s.exposures <= Next(s, step).exposures && s.rows <= Next(s, step).rows
  {
    hide ReadCurrent, OnDay, Recorded, Recomputed, UniqueExposures;
    forall day, a | a in DayRows(s, day) ensures a in s.lakeRows { DayRowsAre(s, day, a); }
    if step.Compact? {
      SameSetUnique(s.lakeExposures, step.compactedExposures);
    }
  }

  lemma SameSetUnique(a: seq<Exposure>, b: seq<Exposure>)
    requires SameSet(a, b) && UniqueExposures(a)
    ensures UniqueExposures(b)
  {
  }

  /** A recording is backed by the rows it groups. */
  lemma RecordedIsBacked(items: set<Item>, group: set<Item>, d: Stamp)
    requires group <= items && d in Recorded(group)
    ensures HasRow(items, d)
  {
    hide Recorded;
    RecordedIs(group);
    var i :| i in group && i.Key() == d.key && i.Stamp() == d.version;
  }

  lemma RecordedCovers(group: set<Item>, stamps: set<Stamp>, i: Item)
    requires i in group && Recorded(group) <= stamps
    ensures HasStamp(stamps, i)
  {
    hide Recorded;
    RecordedIs(group);
    var d :| d in Recorded(group) && d.key == i.Key() && i.Stamp() <= d.version;
  }

  lemma GrowthKeepsBacked(s: State, t: State)
    requires Backed(s) && ItemsOf(s) <= ItemsOf(t)
    requires forall d :: d in t.dirty && d !in s.dirty ==> HasRow(ItemsOf(t), d)
    ensures Backed(t)
  {
    hide ItemsOf;
    forall d | d in t.dirty ensures HasRow(ItemsOf(t), d) {
      if d in s.dirty {
        var i :| i in ItemsOf(s) && i.Key() == d.key && d.version <= i.Stamp();
        assert i in ItemsOf(t);
      }
    }
  }

  /** The rollup rows stay honest when what they summarize changes only with its stamp. */
  lemma GrowthKeepsHonest(s: State, t: State)
    requires Honest(s) && ItemsOf(s) <= ItemsOf(t) && t.hourly == s.hourly && StampsRise(s, t)
    ensures Honest(t)
  {
    hide ItemsOf, RowOf, MaxStamp;
    forall h | h in t.hourly ensures HonestRow(t, h) {
      assert HonestRow(s, h);
      SmallerGroup(ItemsOf(s), ItemsOf(t), h.key);
      RowKey(h.key, ItemsAt(ItemsOf(s), h.key));
      RowKey(h.key, ItemsAt(ItemsOf(t), h.key));
      if h.reportedAt == MaxStamp(ItemsAt(ItemsOf(t), h.key)) {
        assert Published(s, h.key);
      }
    }
  }

  /** Which days are open after a step. */
  function OpenAfter(open: Open, step: Step): Open {
    match step
    case LoadExposures(day) => open.(exposureDays := open.exposureDays - {day})
    case LoadRows(day) => open.(rowDays := open.rowDays - {day})
    case CrashInLoadExposures(day, _, _) => open.(exposureDays := open.exposureDays + {day})
    case CrashInLoadRows(day, _, _) => open.(rowDays := open.rowDays + {day})
    case Truncate => Open({}, {})
    case _ => open
  }

  predicate IsLoad(step: Step) {
    step.LoadExposures? || step.LoadRows? || step.CrashInLoadExposures? || step.CrashInLoadRows?
  }

  /** Every stamp that a load adds is backed by the rows that it leaves. */
  lemma LoadKeepsBacked(s: State, step: Step)
    requires FromLake(s) && Backed(s) && IsLoad(step) && Possible(s, step)
    ensures ItemsOf(s) <= ItemsOf(Next(s, step)) && Backed(Next(s, step))
  {
    hide ItemsOf, Recorded, DayRows, DayExposures, FromLake;
    var t := Next(s, step);
    StepKeepsLake(s, step);
    ItemsGrow(s, t);
    LoadRecordsItems(s, step);
    GrowthKeepsBacked(s, t);
  }

  lemma LoadRecordsItems(s: State, step: Step)
    requires IsLoad(step) && Possible(s, step)
    ensures forall d :: d in Next(s, step).dirty && d !in s.dirty ==> HasRow(ItemsOf(Next(s, step)), d)
  {
    hide ItemsOf, Recorded, DayRows, DayExposures;
    var t := Next(s, step);
    var items, day := ItemsOf(t), step.day;
    assert ItemsOf(t.(dirty := s.dirty)) == items by { SameItems(t.(dirty := s.dirty), t); }
    forall d | d in t.dirty && d !in s.dirty ensures HasRow(items, d) {
      if d in Recorded(AiredOn(items, day)) { RecordedIsBacked(items, AiredOn(items, day), d); }
      else if d in Recorded(CreditedToDay(items, day)) { RecordedIsBacked(items, CreditedToDay(items, day), d); }
      else { RecordedIsBacked(items, CreditedOn(items, day), d); }
    }
  }

  lemma SameItems(s: State, t: State)
    requires s.rows == t.rows && s.exposures == t.exposures
    ensures ItemsOf(s) == ItemsOf(t)
  {
  }

  /** A finished load closes its day, and a crash opens it. */
  lemma LoadKeepsCovered(s: State, step: Step, open: Open)
    requires FromLake(s) && Covered(s, open) && IsLoad(step) && Possible(s, step)
    ensures Covered(Next(s, step), OpenAfter(open, step))
  {
    hide ItemsOf, Recorded, DayRows, Versioned, UniqueExposures;
    var t, day, after := Next(s, step), step.day, OpenAfter(open, step);
    var items := ItemsOf(t);
    StepKeepsLake(s, step);
    SameItems(t.(dirty := s.dirty), t);
    forall i | i in items && !after.Exempts(i) ensures HasStamp(t.dirty, i) {
      ItemOfState(t, i);
      ItemOfState(s, i);
      if i.Credited? { DayRowsAre(s, day, i.a); }
      if step.LoadExposures? && EventDay(i.e) == day {
        RecordedCovers(if i.Aired? then AiredOn(items, day) else CreditedToDay(items, day), t.dirty, i);
      } else if step.LoadRows? && i.Credited? && i.a.Day() == day {
        RecordedCovers(CreditedOn(items, day), t.dirty, i);
      } else {
        assert i in ItemsOf(s) && !open.Exempts(i);
        MoreStamps(s.dirty, t.dirty, i);
      }
    }
  }

  lemma MoreStamps(a: set<Stamp>, b: set<Stamp>, i: Item)
    requires HasStamp(a, i) && a <= b
    ensures HasStamp(b, i)
  {
  }

  // ---------- refreshes ----------

  /** A refresh inserts the rebuilt rows of the dirty keys and nothing else. */
  lemma RecomputedIs(s: State, h: Hourly)
    ensures h in Recomputed(s) <==> (exists d :: d in DirtyNow(s) && d.key == h.key) && RowAt(s, h.key) == Some(h)
  {
    hide RowOf, Rebuild, Items, DirtyKeys;
    var keys := StampedKeys(DirtyNow(s));
    FilterIsRestriction(s.rows, s.exposures, keys, h);
    RebuildIs(ItemsOf(s), h);
  }

  /** Inserting rebuilt rows, all or some of them, keeps every rollup row honest. */
  lemma InsertKeepsHonest(s: State, inserted: set<Hourly>)
    requires Honest(s) && inserted <= Recomputed(s)
    ensures Honest(s.(hourly := s.hourly + inserted))
  {
    hide ItemsOf, RowOf, MaxStamp, Recomputed, RowAt;
    var t := s.(hourly := s.hourly + inserted);
    SameItems(s, t);
    forall h | h in t.hourly ensures HonestRow(t, h) {
      if h in inserted {
        RecomputedIs(s, h);
        RowAtIs(s, h.key);
      } else {
        assert HonestRow(s, h);
      }
    }
  }

  lemma RowAtIs(s: State, k: Key)
    ensures var group := ItemsAt(ItemsOf(s), k);
      RowAt(s, k).Some? <==> group != {}
    ensures RowAt(s, k).Some? ==>
      RowAt(s, k).value.key == k && RowAt(s, k).value.reportedAt == MaxStamp(ItemsAt(ItemsOf(s), k)) &&
      RowAt(s, k).value == RowOf(k, ItemsAt(ItemsOf(s), k))
  {
  }

  /** A backed stamp of a key bounds nothing above the key's latest stamp. */
  lemma BackedIsBelow(s: State, d: Stamp)
    requires Backed(s) && d in s.dirty
    ensures RowAt(s, d.key).Some? && d.version <= RowAt(s, d.key).value.reportedAt
  {
    hide ItemsOf, RowOf, MaxStamp, RowAt;
    var i :| i in ItemsOf(s) && i.Key() == d.key && d.version <= i.Stamp();
    assert i in ItemsAt(ItemsOf(s), d.key);
    MaxStampIs(ItemsAt(ItemsOf(s), d.key));
    RowAtIs(s, d.key);
  }

  /** After a finished refresh every refreshed version has a rollup row at least as new. */
  lemma RefreshKeepsStamped(s: State)
    requires Backed(s) && Stamped(s)
    ensures Stamped(Next(s, Refresh))
  {
    hide ItemsOf, Recomputed, DirtyKeys, RowAt;
    var t := Next(s, Refresh);
    forall r | r in t.refreshed
      ensures r in t.dirty && exists h :: h in t.hourly && h.key == r.key && r.version <= h.reportedAt
    {
      if r in s.refreshed {
        var h :| h in s.hourly && h.key == r.key && r.version <= h.reportedAt;
        assert h in t.hourly;
      } else {
        assert r in DirtyNow(s) && r in s.dirty by { DirtyAreRecorded(s, r); }
        BackedIsBelow(s, r);
        RowAtIs(s, r.key);
        RecomputedIs(s, RowAt(s, r.key).value);
        assert RowAt(s, r.key).value in t.hourly;
      }
    }
  }

  lemma DirtyAreRecorded(s: State, d: Stamp)
    ensures d in DirtyNow(s) ==> d in s.dirty
  {
  }

  /** When no day is open, the dirty version of a key is its latest stamp: that of a
      whole-table rebuild, whatever the order and the repetitions of the loads. */
  lemma DirtyIsLatest(s: State, k: Key)
    requires Backed(s) && Covered(s, Open({}, {}))
    ensures forall d :: d in FinalStamps(s.dirty) && d.key == k ==>
        RowAt(s, k).Some? && d.version == RowAt(s, k).value.reportedAt
    ensures RowAt(s, k).Some? ==> Stamp(k, RowAt(s, k).value.reportedAt) in FinalStamps(s.dirty)
  {
    hide ItemsOf, RowOf, MaxStamp, RowAt, Backed;
    var group := ItemsAt(ItemsOf(s), k);
    RowAtIs(s, k);
    forall d | d in s.dirty && d.key == k ensures RowAt(s, k).Some? && d.version <= RowAt(s, k).value.reportedAt {
      BackedIsBelow(s, d);
    }
    if group != {} {
      MaxStampIs(group);
      var i :| i in group && i.Stamp() == MaxStamp(group);
      assert HasStamp(s.dirty, i);
      var d :| d in s.dirty && d.key == k && i.Stamp() <= d.version;
      assert d == Stamp(k, RowAt(s, k).value.reportedAt);
    }
  }

  /** A completed refresh leaves the rollup that a whole-table rebuild would compute. */
  lemma RefreshIsExact(s: State)
    requires Inv(s, Open({}, {}))
    ensures Exact(Next(s, Refresh))
  {
    hide ItemsOf, RowOf, RowAt, Backed, Covered, Stamped, Honest, FromLake, Recomputed, DirtyKeys;
    var t := Next(s, Refresh);
    SameItems(s, t);
    InsertKeepsHonest(s, Recomputed(s));
    var half := s.(hourly := s.hourly + Recomputed(s));
    SameItems(half, t);
    SameHonest(half, t);
    forall k | RowAt(t, k).Some? ensures RowAt(t, k).value in t.hourly { RefreshBringsCurrent(s, k); }
    HonestIsExact(t);
  }

  lemma SameHonest(s: State, t: State)
    requires Honest(s) && ItemsOf(s) == ItemsOf(t) && s.hourly == t.hourly
    ensures Honest(t)
  {
  }

  lemma RefreshBringsCurrent(s: State, k: Key)
    requires Inv(s, Open({}, {})) && RowAt(Next(s, Refresh), k).Some?
    ensures RowAt(Next(s, Refresh), k).value in Next(s, Refresh).hourly
  {
    hide ItemsOf, RowOf, RowAt, Backed, Covered, FromLake, Recomputed, DirtyKeys, MaxStamp;
    var t := Next(s, Refresh);
    SameItems(s, t);
    assert RowAt(t, k) == RowAt(s, k) by { SameRowAt(s, t, k); }
    var row := RowAt(s, k).value;
    DirtyIsLatest(s, k);
    DirtyKeysAre(s.dirty, s.refreshed);
    RowAtIs(s, k);
    RecomputedIs(s, row);
    var d := Stamp(k, row.reportedAt);
    if d in FinalStamps(s.refreshed) {
      assert d in s.refreshed;
      var h :| h in s.hourly && h.key == k && d.version <= h.reportedAt;
      assert HonestRow(s, h);
    }
  }

  lemma SameRowAt(s: State, t: State, k: Key)
    requires ItemsOf(s) == ItemsOf(t)
    ensures RowAt(s, k) == RowAt(t, k)
  {
  }

  /** Honest rows among which every current row is found are exact. */
  lemma HonestIsExact(s: State)
    requires Honest(s)
    requires forall k :: RowAt(s, k).Some? ==> RowAt(s, k).value in s.hourly
    ensures Exact(s)
  {
    hide ItemsOf, RowOf, RowAt, MaxStamp;
    forall h ensures h in FinalHourly(s.hourly) <==> h in Rebuild(ItemsOf(s)) {
      RebuildIs(ItemsOf(s), h);
      RowAtIs(s, h.key);
      if h in s.hourly { assert HonestRow(s, h); }
      if h in Rebuild(ItemsOf(s)) {
        forall q | q in s.hourly && q.key == h.key ensures q.reportedAt <= h.reportedAt { assert HonestRow(s, q); }
      }
    }
  }

  /** A completed refresh leaves no dirty key. */
  lemma RefreshCleans(s: State)
    requires Stamped(s)
    ensures DirtyNow(Next(s, Refresh)) == {}
  {
    hide Recomputed, DirtyKeys;
    var t := Next(s, Refresh);
    DirtyKeysAre(s.dirty, s.refreshed);
    DirtyKeysAre(t.dirty, t.refreshed);
    forall d | d in FinalStamps(t.dirty) ensures d in FinalStamps(t.refreshed) {
      assert d in FinalStamps(s.refreshed) || d in DirtyNow(s);
      forall q | q in t.refreshed && q.key == d.key ensures q.version <= d.version { assert q in s.dirty; }
    }
  }

  /** The dirty set is an exact index of the rebuild: once no day is open, its `FINAL` is
      the latest stamp of every key over exactly the rows that a rebuild aggregates. */
  lemma DirtySetIsExact(s: State)
    requires Recording(s, Open({}, {}))
    ensures FinalStamps(s.dirty) == Recorded(ItemsOf(s))
  {
    hide ItemsOf, RowAt, RowOf, Backed, Covered, MaxStamp;
    var items := ItemsOf(s);
    forall d ensures d in FinalStamps(s.dirty) <==> d in Recorded(items) {
      DirtyIsLatest(s, d.key);
      RowAtIs(s, d.key);
      if d in Recorded(items) {
        var i :| i in items && d == Stamp(i.Key(), LatestAt(items, i));
      }
      if d in FinalStamps(s.dirty) {
        var i := Member(ItemsAt(items, d.key));
        assert i in items && d == Stamp(i.Key(), LatestAt(items, i));
      }
    }
  }

  // ---------- runs ----------

  ghost function RunOf(s: State, steps: seq<Step>): State
    decreases |steps|
  {
    if steps == [] then s else RunOf(Next(s, steps[0]), steps[1..])
  }

  function OpenOf(open: Open, steps: seq<Step>): Open
    decreases |steps|
  {
    if steps == [] then open else OpenOf(OpenAfter(open, steps[0]), steps[1..])
  }

  ghost predicate PossibleRun(s: State, steps: seq<Step>)
    decreases |steps|
  {
    steps == [] || (Possible(s, steps[0]) && PossibleRun(Next(s, steps[0]), steps[1..]))
  }

  /** Every load of the run raises the stamp of every published key that it changes. */
  ghost predicate RisingRun(s: State, steps: seq<Step>)
    decreases |steps|
  {
    steps == [] || ((IsLoad(steps[0]) ==> StampsRise(s, Next(s, steps[0]))) && RisingRun(Next(s, steps[0]), steps[1..]))
  }

  lemma StepKeepsRecording(s: State, step: Step, open: Open)
    requires Recording(s, open) && Possible(s, step)
    ensures Recording(Next(s, step), OpenAfter(open, step))
  {
    hide Items, FromLake, Recomputed, Recorded;
    StepKeepsLake(s, step);
    var t := Next(s, step);
    if IsLoad(step) {
      LoadKeepsBacked(s, step);
      LoadKeepsCovered(s, step, open);
    } else if step.Truncate? {
      NothingToAggregate(t);
    } else {
      SameItems(s, t);
    }
  }

  lemma NothingToAggregate(s: State)
    requires s.exposures == {} && s.rows == {}
    ensures ItemsOf(s) == {}
  {
  }

  lemma StepKeepsInv(s: State, step: Step, open: Open)
    requires Inv(s, open) && Possible(s, step) && (IsLoad(step) ==> StampsRise(s, Next(s, step)))
    ensures Inv(Next(s, step), OpenAfter(open, step))
  {
    hide ItemsOf, Backed, Covered, StampsRise, FromLake, OpenAfter, Recomputed, HonestRow, DirtyKeys, Recorded;
    var t := Next(s, step);
    StepKeepsRecording(s, step, open);
    if IsLoad(step) {
      GrowthKeepsHonest(s, t) by {
        LoadKeepsBacked(s, step);
      }
    } else if step.Refresh? {
      RefreshKeepsStamped(s);
      InsertKeepsHonest(s, Recomputed(s));
      SameHonestAcross(s.(hourly := s.hourly + Recomputed(s)), t);
    } else if step.CrashInRefresh? {
      InsertKeepsHonest(s, step.insertedHourly);
    } else if !step.Truncate? {
      SameHonestAcross(s, t);
    }
  }

  lemma SameHonestAcross(s: State, t: State)
    requires Honest(s) && s.rows == t.rows && s.exposures == t.exposures && s.hourly == t.hourly
    ensures Honest(t)
  {
    hide ItemsOf, HonestRow;
    SameItems(s, t);
    SameHonest(s, t);
  }

  lemma {:induction false} RunKeepsInv(s: State, steps: seq<Step>, open: Open)
    requires Inv(s, open) && PossibleRun(s, steps) && RisingRun(s, steps)
    ensures Inv(RunOf(s, steps), OpenOf(open, steps))
    decreases |steps|
  {
    hide Inv, Next, OpenAfter, Possible, StampsRise, IsLoad;
    if steps != [] {
      StepKeepsInv(s, steps[0], open);
      RunKeepsInv(Next(s, steps[0]), steps[1..], OpenAfter(open, steps[0]));
    }
  }

  lemma {:induction false} RunKeepsRecording(s: State, steps: seq<Step>, open: Open)
    requires Recording(s, open) && PossibleRun(s, steps)
    ensures Recording(RunOf(s, steps), OpenOf(open, steps))
    decreases |steps|
  {
    hide Recording, Next, OpenAfter, Possible;
    if steps != [] {
      StepKeepsRecording(s, steps[0], open);
      RunKeepsRecording(Next(s, steps[0]), steps[1..], OpenAfter(open, steps[0]));
    }
  }

  /** Serving tables that nothing was loaded into, over any consistent lake. */
  ghost predicate Unloaded(s: State) {
    && UniqueExposures(s.lakeExposures) && Versioned(s.lakeRows)
    && s.exposures == {} && s.rows == {} && s.dirty == {} && s.refreshed == {} && s.hourly == {}
  }

  lemma UnloadedInv(s: State)
    requires Unloaded(s)
    ensures Inv(s, Open({}, {}))
  {
    NothingToAggregate(s);
  }

  /** Rollup exactness over whole runs: whatever landings, loads, repetitions, crashes,
      compactions, truncations and refreshes came before, in any order, a refresh that
      completes with no load left unfinished serves exactly what a whole-table rebuild
      computes, provided every load raised the stamps of the published keys it changed. */
  lemma RollupIsExactOverRuns(s: State, steps: seq<Step>)
    requires Unloaded(s) && PossibleRun(s, steps) && RisingRun(s, steps)
    requires OpenOf(Open({}, {}), steps) == Open({}, {})
    ensures Exact(RunOf(s, steps + [Refresh]))
  {
    hide Inv, Next, PossibleRun, RisingRun, Exact, OpenOf;
    UnloadedInv(s);
    RunKeepsInv(s, steps, Open({}, {}));
    RefreshIsExact(RunOf(s, steps));
    RunSnoc(s, steps, Refresh);
  }

  lemma {:induction false} RunSnoc(s: State, steps: seq<Step>, step: Step)
    ensures RunOf(s, steps + [step]) == Next(RunOf(s, steps), step)
    decreases |steps|
  {
    hide Next;
    if steps == [] {
      assert [step][1..] == [] && ([] + [step])[0] == step && ([] + [step])[1..] == [];
      assert RunOf(Next(s, step), []) == Next(s, step);
    } else {
      assert (steps + [step])[0] == steps[0] && (steps + [step])[1..] == steps[1..] + [step];
      RunSnoc(Next(s, steps[0]), steps[1..], step);
    }
  }

  // ---------- truncations ----------

  function Truncations(): seq<Step> {
    seq(|SERVING_TABLES|, k requires 0 <= k < |SERVING_TABLES| => TruncateTable(SERVING_TABLES[k]))
  }

  /** What the first `n` truncations leave. */
  function Truncated(s: State, n: nat): State
    requires n <= |SERVING_TABLES|
  {
    if n == 0 then s else Emptied(Truncated(s, n - 1), SERVING_TABLES[n - 1])
  }

  lemma {:induction false} TruncationsAre(s: State, n: nat)
    requires n <= |SERVING_TABLES|
    ensures RunOf(s, Truncations()[..n]) == Truncated(s, n)
  {
    var all := Truncations();
    if n > 0 {
      TruncationsAre(s, n - 1);
      assert all[..n] == all[..n - 1] + [all[n - 1]];
      RunSnoc(s, all[..n - 1], all[n - 1]);
    }
  }

  lemma {:induction false} TruncatedIs(s: State, n: nat)
    requires n <= |SERVING_TABLES|
    ensures Truncated(s, n) ==
            State(s.lakeExposures, s.lakeRows, if n >= 1 then {} else s.exposures, if n >= 2 then {} else s.rows,
                  if n >= 5 then {} else s.dirty, if n >= 6 then {} else s.refreshed, if n >= 4 then {} else s.hourly)
  {
    if n > 0 { TruncatedIs(s, n - 1); }
  }

  /** All six are the truncation of the state machine. */
  lemma AllTruncated(s: State)
    ensures Truncated(s, 6) == Next(s, Truncate) && RunOf(s, Truncations()) == Next(s, Truncate)
  {
    TruncatedIs(s, 6);
    TruncationsAre(s, 6);
    assert Truncations()[..6] == Truncations();
  }

  // ---------- exactly when a refresh is right ----------

  /** Over a clean rollup, any further loads are followed by an exact refresh if and only if
      every key whose content they changed got a later stamp: dirtiness compares stamps. */
  lemma RefreshExactIff(s: State, t: State)
    requires Inv(s, Open({}, {})) && DirtyNow(s) == {}
    requires Recording(t, Open({}, {})) && s.exposures <= t.exposures && s.rows <= t.rows
    requires s.dirty <= t.dirty && t.refreshed == s.refreshed && t.hourly == s.hourly
    ensures Exact(Next(t, Refresh)) <==> StampsRise(s, t)
  {
    hide Items, ItemsOf, RowAt, RowOf, Backed, Covered, Honest, FromLake, HonestRow, Recomputed, DirtyKeys,
         MaxStamp;
    ItemsGrow(s, t);
    if StampsRise(s, t) {
      GrowthKeepsHonest(s, t);
      RefreshIsExact(t);
    }
    if Exact(Next(t, Refresh)) {
      forall k | Published(s, k) && RowAt(t, k) != RowAt(s, k)
        ensures RowAt(s, k).Some? && RowAt(t, k).Some?
        ensures RowAt(s, k).value.reportedAt < RowAt(t, k).value.reportedAt
      {
        SmallerGroup(ItemsOf(s), ItemsOf(t), k);
        RowAtIs(s, k);
        RowAtIs(t, k);
        if RowAt(s, k).value.reportedAt == RowAt(t, k).value.reportedAt {
          UnmovedStampIsSkipped(s, t, k);
        }
      }
    }
  }

  /** A key whose stamp did not move is not dirty. */
  lemma UnmovedIsClean(s: State, t: State, k: Key)
    requires Recording(s, Open({}, {})) && DirtyNow(s) == {}
    requires Recording(t, Open({}, {})) && t.refreshed == s.refreshed
    requires RowAt(s, k).Some? && RowAt(t, k).Some? && RowAt(s, k).value.reportedAt == RowAt(t, k).value.reportedAt
    ensures forall x :: x in DirtyNow(t) ==> x.key != k
  {
    hide Items, ItemsOf, RowAt, RowOf, Backed, Covered, FromLake, Recomputed, DirtyKeys, MaxStamp;
    var d := Stamp(k, RowAt(t, k).value.reportedAt);
    DirtyIsLatest(s, k);
    DirtyIsLatest(t, k);
    DirtyKeysAre(s.dirty, s.refreshed);
    DirtyKeysAre(t.dirty, t.refreshed);
    assert d in FinalStamps(s.dirty) && d !in DirtyNow(s);
    assert d in FinalStamps(s.refreshed);
  }

  /** And is not recomputed. */
  lemma UnmovedStampIsSkipped(s: State, t: State, k: Key)
    requires Inv(s, Open({}, {})) && DirtyNow(s) == {}
    requires Recording(t, Open({}, {})) && t.refreshed == s.refreshed && t.hourly == s.hourly
    requires RowAt(s, k).Some? && RowAt(t, k).Some? && RowAt(s, k).value.reportedAt == RowAt(t, k).value.reportedAt
    ensures Exact(Next(t, Refresh)) ==> RowAt(t, k) == RowAt(s, k)
  {
    hide Items, ItemsOf, RowAt, RowOf, Backed, Covered, FromLake, Recomputed, DirtyKeys, MaxStamp;
    var row, u := RowAt(t, k).value, Next(t, Refresh);
    RowAtIs(s, k);
    RowAtIs(t, k);
    UnmovedIsClean(s, t, k);
    SameItems(t, u);
    RebuildIs(ItemsOf(u), row);
    RecomputedIs(t, row);
    if Exact(u) {
      assert row in FinalHourly(u.hourly);
      assert HonestRow(s, row);
    }
  }

  // ---------- load order ----------

  ghost predicate OnlyLoads(steps: seq<Step>) {
    forall x :: x in steps ==> x.LoadExposures? || x.LoadRows?
  }

  /** What a list of finished day loads leaves in the tables. */
  lemma {:induction false} LoadedBy(s: State, steps: seq<Step>)
    requires FromLake(s) && OnlyLoads(steps)
    ensures var t := RunOf(s, steps);
      && FromLake(t) && t.lakeExposures == s.lakeExposures && t.lakeRows == s.lakeRows
      && s.dirty <= t.dirty && t.refreshed == s.refreshed && t.hourly == s.hourly
    ensures forall e :: e in RunOf(s, steps).exposures <==>
              e in s.exposures || (e in s.lakeExposures && LoadExposures(EventDay(e)) in steps)
    ensures forall a :: a in RunOf(s, steps).rows <==>
              a in s.rows || (CurrentOf(s.lakeRows, a.Cid()) == Some(a) && LoadRows(a.Day()) in steps)
    decreases |steps|
  {
    hide ExposureStamps, RowStamps, DayRows, Versioned, UniqueExposures, CurrentOf;
    if steps != [] {
      var first, rest := steps[0], steps[1..];
      assert steps == [first] + rest;
      assert first in steps && forall x :: x in rest ==> x in steps;
      assert first.LoadExposures? || first.LoadRows?;
      var t := Next(s, first);
      StepKeepsLake(s, first);
      LoadedBy(t, rest);
      forall a { DayRowsAre(s, first.day, a); }
    }
  }

  lemma {:induction false} LoadsPossible(s: State, steps: seq<Step>, open: Open)
    requires OnlyLoads(steps)
    ensures PossibleRun(s, steps)
    ensures open == Open({}, {}) ==> OpenOf(open, steps) == open
    decreases |steps|
  {
    hide Next;
    if steps != [] {
      assert steps[0] in steps && forall x :: x in steps[1..] ==> x in steps;
      LoadsPossible(Next(s, steps[0]), steps[1..], OpenAfter(open, steps[0]));
    }
  }

  /** Load-order independence: the same day loads, in any order and repeated any number of
      times, leave the same rows and the same dirty versions. */
  lemma LoadOrderDoesNotMatter(s: State, x: seq<Step>, y: seq<Step>)
    requires Recording(s, Open({}, {})) && OnlyLoads(x) && SameSet(x, y)
    ensures RunOf(s, x).exposures == RunOf(s, y).exposures && RunOf(s, x).rows == RunOf(s, y).rows
    ensures FinalStamps(RunOf(s, x).dirty) == FinalStamps(RunOf(s, y).dirty)
  {
    hide Recording, RunOf, CurrentOf, ItemsOf, OnlyLoads, Recorded;
    assert FromLake(s) by { FromRecording(s); }
    assert OnlyLoads(y) by { SameLoads(x, y); }
    var t, u := RunOf(s, x), RunOf(s, y);
    LoadedBy(s, x);
    LoadedBy(s, y);
    assert t.exposures == u.exposures && t.rows == u.rows;
    LoadsPossible(s, x, Open({}, {}));
    LoadsPossible(s, y, Open({}, {}));
    RunKeepsRecording(s, x, Open({}, {}));
    RunKeepsRecording(s, y, Open({}, {}));
    DirtySetIsExact(t);
    DirtySetIsExact(u);
    SameItems(t, u);
  }

  lemma FromRecording(s: State)
    requires Recording(s, Open({}, {}))
    ensures FromLake(s)
  {
  }

  lemma SameLoads(x: seq<Step>, y: seq<Step>)
    requires OnlyLoads(x) && SameSet(x, y)
    ensures OnlyLoads(y)
  {
  }

  // ---------- serving is a projection of the lake ----------

  /** Days that were landed into, or truncated, since their last finished load. */
  datatype Stale = Stale(exposureDays: set<int>, rowDays: set<int>)

  function DaysAired(exposures: seq<Exposure>): set<int> { set e | e in exposures :: EventDay(e) }

  function StaleAfter(s: State, stale: Stale, step: Step): Stale {
    match step
    case LandExposures(added) => stale.(exposureDays := stale.exposureDays + DaysAired(added))
    case LandRows(added) => stale.(rowDays := stale.rowDays + DaysOf(added))
    case LoadExposures(day) => stale.(exposureDays := stale.exposureDays - {day})
    case LoadRows(day) => stale.(rowDays := stale.rowDays - {day})
    case Truncate => Stale(DaysAired(s.lakeExposures), DaysOf(s.lakeRows))
    case _ => stale
  }

  ghost function StaleOf(s: State, stale: Stale, steps: seq<Step>): Stale
    decreases |steps|
  {
    if steps == [] then stale else StaleOf(Next(s, steps[0]), StaleAfter(s, stale, steps[0]), steps[1..])
  }

  /** Every exposure and every current row of a day that is not stale is in serving. */
  ghost predicate Fresh(s: State, stale: Stale) {
    && (forall e :: e in s.lakeExposures && EventDay(e) !in stale.exposureDays ==> e in s.exposures)
    && (forall a :: a in s.lakeRows && CurrentOf(s.lakeRows, a.Cid()) == Some(a) && a.Day() !in stale.rowDays ==>
      a in s.rows)
  }

  lemma OneVersion(rows: seq<Attributed>)
    requires Versioned(rows)
    ensures OneRowPerVersion(rows)
  {
  }

  /** A landing on other days leaves the current row of a conversion in place. */
  lemma LandingElsewhere(rows: seq<Attributed>, added: seq<Attributed>, a: Attributed)
    requires Versioned(rows + added) && CurrentOf(rows + added, a.Cid()) == Some(a) && a.Day() !in DaysOf(added)
    ensures a in rows && CurrentOf(rows, a.Cid()) == Some(a)
  {
    hide CurrentOf;
    OneVersion(rows + added);
    OneVersion(rows) by {
      assert forall x :: x in rows ==> x in rows + added;
    }
    CurrentIs(rows + added, a.Cid());
    assert a in added ==> a.Day() in DaysOf(added);
    CurrentExactly(rows + added, a);
    CurrentExactly(rows, a);
  }

  lemma StepKeepsFresh(s: State, step: Step, stale: Stale)
    requires FromLake(s) && Fresh(s, stale) && Possible(s, step)
    ensures Fresh(Next(s, step), StaleAfter(s, stale, step))
  {
    hide ExposureStamps, RowStamps, DayRows, UniqueExposures, CurrentOf, Recomputed, DirtyKeys;
    var t, after := Next(s, step), StaleAfter(s, stale, step);
    forall added: seq<Exposure>, e | e in added ensures EventDay(e) in DaysAired(added) {}
    assert forall e :: e in t.lakeExposures && EventDay(e) !in after.exposureDays ==> e in t.exposures;
    forall a | a in t.lakeRows && CurrentOf(t.lakeRows, a.Cid()) == Some(a) && a.Day() !in after.rowDays
      ensures a in t.rows
    {
      match step
      case LandRows(added) => LandingElsewhere(s.lakeRows, added, a);
      case Compact(_, r) =>
        OneVersion(s.lakeRows);
        CurrentDependsOnSet(s.lakeRows, r, a.Cid());
      case LoadRows(day) => DayRowsAre(s, day, a);
      case _ =>
    }
  }

  lemma {:induction false} RunKeepsFresh(s: State, steps: seq<Step>, open: Open, stale: Stale)
    requires Recording(s, open) && Fresh(s, stale) && PossibleRun(s, steps)
    ensures Fresh(RunOf(s, steps), StaleOf(s, stale, steps))
    decreases |steps|
  {
    hide Next, OpenAfter, StaleAfter, Possible, Fresh, FromLake, Backed, Covered;
    if steps != [] {
      StepKeepsRecording(s, steps[0], open);
      StepKeepsFresh(s, steps[0], stale);
      RunKeepsFresh(Next(s, steps[0]), steps[1..], OpenAfter(open, steps[0]), StaleAfter(s, stale, steps[0]));
    }
  }

  /** Serving is a projection of the lake. `FINAL` compares `processed_at` alone and the
      lake read breaks ties on `path`; they agree on every day that is not stale. */
  lemma FinalIsCurrent(s: State, stale: Stale, f: Attributed)
    requires FromLake(s) && Fresh(s, stale) && f.Day() !in stale.rowDays
    ensures f in FinalRows(s.rows) <==> CurrentOf(s.lakeRows, f.Cid()) == Some(f)
  {
    hide CurrentOf, UniqueExposures;
    OneVersion(s.lakeRows);
    CurrentIs(s.lakeRows, f.Cid());
    if f in FinalRows(s.rows) {
      assert f.Cid() in CidsOf(s.lakeRows);
      var a := CurrentOf(s.lakeRows, f.Cid()).value;
      assert a in s.rows;
    }
    if CurrentOf(s.lakeRows, f.Cid()) == Some(f) {
      forall q | q in s.rows && q.Cid() == f.Cid() ensures q.processedAt <= f.processedAt {}
    }
  }

  /** The same over whole runs. */
  lemma ServingIsAProjection(s: State, steps: seq<Step>, f: Attributed)
    requires Unloaded(s) && PossibleRun(s, steps)
    requires f.Day() !in StaleOf(s, Stale(DaysAired(s.lakeExposures), DaysOf(s.lakeRows)), steps).rowDays
    ensures f in FinalRows(RunOf(s, steps).rows) <==> CurrentOf(RunOf(s, steps).lakeRows, f.Cid()) == Some(f)
  {
    hide PossibleRun, RunOf, StaleOf, CurrentOf, FromLake, Backed, Covered, OpenOf, Final;
    var all := Stale(DaysAired(s.lakeExposures), DaysOf(s.lakeRows));
    UnloadedInv(s);
    assert Fresh(s, all) by { AllStale(s, all); }
    RunKeepsRecording(s, steps, Open({}, {}));
    RunKeepsFresh(s, steps, Open({}, {}), all);
    FinalIsCurrent(RunOf(s, steps), StaleOf(s, all, steps), f);
  }

  lemma AllStale(s: State, all: Stale)
    requires all == Stale(DaysAired(s.lakeExposures), DaysOf(s.lakeRows))
    ensures Fresh(s, all)
  {
  }

  /** What a rebuild straight from the lake would aggregate. */
  ghost function LakeItems(s: State): set<Item> {
    Items(set a | a in ReadCurrent(s.lakeRows), set e | e in s.lakeExposures)
  }

  lemma NothingStale(s: State)
    requires FromLake(s) && Fresh(s, Stale({}, {}))
    ensures ItemsOf(s) == LakeItems(s)
  {
    hide CurrentOf, ReadCurrent, UniqueExposures, Versioned;
    ReadCurrentIs(s.lakeRows);
    var current, all := set a | a in ReadCurrent(s.lakeRows), set e | e in s.lakeExposures;
    forall i ensures i in ItemsOf(s) <==> i in LakeItems(s) {
      ItemIs(s.rows, s.exposures, i);
      ItemIs(current, all, i);
      if i.Credited? {
        FinalIsCurrent(s, Stale({}, {}), i.a);
        assert i.a in FinalRows(current) <==> i.a in current;
      }
    }
  }

  /** So a refreshed rollup is a function of the lake: a replay, an incremental history and
      any other history of the same lake serve the same rows. */
  lemma RollupIsAFunctionOfTheLake(s: State, steps: seq<Step>)
    requires Unloaded(s) && PossibleRun(s, steps) && RisingRun(s, steps)
    requires OpenOf(Open({}, {}), steps) == Open({}, {})
    requires StaleOf(s, Stale(DaysAired(s.lakeExposures), DaysOf(s.lakeRows)), steps) == Stale({}, {})
    ensures FinalHourly(RunOf(s, steps + [Refresh]).hourly) == Rebuild(LakeItems(RunOf(s, steps)))
  {
    hide PossibleRun, RisingRun, RunOf, StaleOf, FromLake, Backed, Covered, OpenOf, Final, Items, Rebuild, Fresh,
         Next;
    var all := Stale(DaysAired(s.lakeExposures), DaysOf(s.lakeRows));
    UnloadedInv(s);
    AllStale(s, all);
    RunKeepsRecording(s, steps, Open({}, {}));
    RunKeepsFresh(s, steps, Open({}, {}), all);
    NothingStale(RunOf(s, steps));
    RollupIsExactOverRuns(s, steps);
    RunSnoc(s, steps, Refresh);
    RefreshKeepsItems(RunOf(s, steps));
  }

  lemma RefreshKeepsItems(s: State)
    ensures ItemsOf(Next(s, Refresh)) == ItemsOf(s)
  {
  }
}
