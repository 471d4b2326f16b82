/** A reconciliation cut into day partitions that are each loaded and refreshed by
    themselves (orchestration/run.py:114-135 with a partition): exactly when the served
    rollup survives it. */
module Partitions {
  import opened Rows
  import opened Orders
  import opened Leaf
  import opened Collapse
  import opened Lateness
  import opened Dataflow
  import opened Parity
  import opened Reconcile
  import opened Lake
  import opened Recover
  import opened Protocol
  import opened Rollup
  import opened Serving
  import opened Pipeline
  import opened Restatement
  import opened Warehouse
  import opened Jobs

  // ---------- one partition at a time ----------

  /** What a partition recovers is recovered by the whole pass, on its own day. */
  lemma PartitionIsPart(i: Input, s: State, day: int, x: Attributed)
    requires OfInput(i, s) && LakeHoldsHot(i, s) && Fresh(s, Stale({}, {}))
    requires SameSet(s.lakeRows, HotRows(i)) && x in PartitionRows(s, day)
    ensures x in ReconRows(i) && x.Day() == day
  {
    hide HotRows, ReconRows, LakeCandidates, OnDay, PassOver, ServedMaxIngest, RecoverRow, ReconciledAt,
         CandidateDays;
    var at := ReconciledAt(i);
    ReconciledAtIsFixed(i, s);
    InPass(OnDay(s.lakeRows, day), s.lakeExposures, LONG_WINDOW, at, x);
    var a :| a in LakeCandidates(OnDay(s.lakeRows, day)) &&
             RecoverRow(a, AllByHousehold(s.lakeExposures), LONG_WINDOW, at) == Some(x);
    LakeIsConsistent(i, s.lakeRows);
    CandidatesOfDay(s.lakeRows, day, a);
    RecoverRowMeans(a, AllByHousehold(s.lakeExposures), LONG_WINDOW, at);
    InPass(s.lakeRows, s.lakeExposures, LONG_WINDOW, at, x);
    BucketedEqualsSinglePass(s.lakeExposures, s.lakeRows, LONG_WINDOW, at, x);
    FirstPassLandsRecon(i, s.lakeExposures, s.lakeRows, x);
  }

  lemma OneDay(s: State, day: int)
    ensures Corrections(s, [day]) == PartitionRows(s, day)
  {
    hide LakeCandidates, OnDay, PassOver, ServedMaxIngest;
    assert Init([day]) == [] && Last([day]) == day;
    assert RecoveredByDay([], s.lakeExposures, s.lakeRows, LONG_WINDOW, ReconciledAtFor(ServedMaxIngest(s))) == [];
    assert [] + PartitionRows(s, day) == PartitionRows(s, day);
  }

  /** A recovery in a fresh warehouse is served. */
  lemma CreditServed(i: Input, s: State, x: Attributed)
    requires OfInput(i, s) && Fresh(s, Stale({}, {})) && x in s.lakeRows && x in ReconRows(i)
    ensures x in s.rows && x.attributed
  {
    hide HotRows, ReconRows, CurrentOf, UniqueExposures, Versioned;
    var h := Corrects(i, x);
    CreditIsFinal(i, s.lakeRows, x);
  }

  /** The campaign hours that a partition credits. */
  function HoursCredited(s: State, rows: seq<Attributed>): set<Key> {
    set x, e | x in rows && e in s.lakeExposures && Credits(x, e) :: KeyOf(e)
  }

  /** The hours that a reconciliation, or a part of one, has credited already. */
  function HoursRecovered(t: State): set<Key> {
    set x, e | x in t.lakeRows && x.path == Reconciled && e in t.lakeExposures && Credits(x, e) :: KeyOf(e)
  }

  // ---------- one more reconciliation ----------

  /** A warehouse that has loaded everything, be its rollup right or wrong. */
  ghost predicate Steady(i: Input, t: State) {
    && OfInput(i, t) && LakeHoldsHot(i, t) && Fresh(t, Stale({}, {})) && Recording(t, Open({}, {})) && Stamped(t)
  }

  /** What it recovers are rows of the whole pass that are not there yet. */
  lemma NotThereYet(i: Input, t: State, more: seq<int>, y: Attributed)
    requires OfInput(i, t) && LakeHoldsHot(i, t) && Fresh(t, Stale({}, {})) && y in Corrections(t, more)
    ensures y in ReconRows(i) && y !in t.lakeRows
  {
    hide HotRows, ReconRows, Corrections, CurrentOf, UniqueExposures, ServesLatest;
    LoadedServesLatest(i, t);
    CorrectionIsOfThePassIff(i, t, more, y);
    LakeIsConsistent(i, t.lakeRows);
    var a := CorrectionMeans(t, more, y);
    if y in t.lakeRows { CreditIsFinal(i, t.lakeRows, y); }
  }

  /** The warehouse that its refresh finds. */
  lemma NextLoads(i: Input, t: State, more: seq<int>) returns (u: State)
    requires Steady(i, t) && Corrections(t, more) != []
    ensures ReconcileJob(t, more) == Next(u, Refresh)
    ensures OfInput(i, u) && Recording(u, Open({}, {})) && Fresh(u, Stale({}, {}))
    ensures t.exposures <= u.exposures && t.rows <= u.rows && ItemsOf(t) <= ItemsOf(u)
    ensures t.dirty <= u.dirty && u.refreshed == t.refreshed && u.hourly == t.hourly
    ensures u.lakeExposures == t.lakeExposures && u.lakeRows == t.lakeRows + Corrections(t, more)
    ensures forall y :: y in Corrections(t, more) ==> y in u.rows
    ensures forall e :: e in i.exposures ==> e in t.exposures && e in u.exposures
  {
    hide HotRows, ReconRows, Corrections, DirtyNow, FromLake, DaysOf, RunOf, LoadSteps, Backed, ItemsOf, Covered,
         Stamped, ExposureStamps, RowStamps, OnlyLoads, OpenOf, PossibleRun, CurrentOf;
    var rows := Corrections(t, more);
    var loaded := DaysOf(rows);
    var steps := LoadSteps(SortedIds(loaded));
    var t1 := Next(t, LandRows(rows));
    u := RunOf(t1, steps);
    SomeRowSomeDay(rows);
    forall z | z in rows ensures z in ReconRows(i) { NotThereYet(i, t, more, z); }
    TwoPassesAreVersioned(i, t.lakeRows + rows);
    StepKeepsRecording(t, LandRows(rows), Open({}, {}));
    assert FromLake(t1) by { FromRecording(t1); }
    LoadStepsAre(SortedIds(loaded));
    LoadsPossible(t1, steps, Open({}, {}));
    RunKeepsRecording(t1, steps, Open({}, {}));
    LoadedBy(t1, steps);
    FromInput(i, t);
    StepKeepsFresh(t, LandRows(rows), Stale({}, {}));
    NoDaysOff(loaded);
    LoadingFreshens(t1, loaded, Stale({}, loaded));
    forall y | y in rows ensures y in u.rows { CreditServed(i, u, y); }
    ItemsGrow(t, u);
  }

  lemma SomeRowSomeDay(rows: seq<Attributed>)
    requires rows != []
    ensures DaysOf(rows) != {}
  {
    assert rows[0] in rows && rows[0].Day() in DaysOf(rows);
  }

  /** Its refresh leaves a warehouse that has loaded everything, with clean keys. */
  lemma NextIsSteady(i: Input, t: State, u: State)
    requires Steady(i, t) && OfInput(i, u) && Recording(u, Open({}, {})) && Fresh(u, Stale({}, {}))
    requires t.dirty <= u.dirty && u.refreshed == t.refreshed && u.hourly == t.hourly
    requires forall e :: e in t.lakeExposures ==> e in u.lakeExposures
    requires forall a :: a in t.lakeRows ==> a in u.lakeRows
    ensures Steady(i, Next(u, Refresh)) && DirtyNow(Next(u, Refresh)) == {}
  {
    hide HotRows, ReconRows, DirtyNow, FromLake, Backed, Covered, Recomputed, UniqueExposures, FromTheTwoPasses;
    var v := Next(u, Refresh);
    assert Stamped(u);
    RefreshKeepsStamped(u);
    RefreshCleans(u);
    StepKeepsRecording(u, Refresh, Open({}, {}));
    RefreshFrame(u);
    SameFresh(u, v);
    FromRecording(v);
  }

  // ---------- one that shares no hour with what was recovered before ----------

  /** What it adds is its own credits. */
  lemma NewItemIsNext(i: Input, t: State, u: State, rows: seq<Attributed>, z: Item)
    requires OfInput(i, t) && Fresh(t, Stale({}, {})) && OfInput(i, u) && u.lakeRows == t.lakeRows + rows
    requires forall e :: e in i.exposures ==> e in t.exposures
    requires z in ItemsOf(u) && z !in ItemsOf(t)
    ensures z.Credited? && z.a in rows && z.e in t.lakeExposures && Credits(z.a, z.e)
  {
    hide HotRows, ReconRows, ItemsOf, CurrentOf, UniqueExposures, Versioned;
    ItemOfState(t, z);
    ItemOfState(u, z);
    if z.Credited? && z.a in t.lakeRows { CreditIsFinal(i, t.lakeRows, z.a); }
  }

  /** What was there before is the hot pass and what was recovered. */
  lemma OldItemIsHotOrRecovered(i: Input, t: State, w: Item)
    requires OfInput(i, t) && w in ItemsOf(t)
    ensures w in HotItems(i) || w.Key() in HoursRecovered(t)
  {
    hide HotRows, ReconRows, ItemsOf, CurrentOf, UniqueExposures, Versioned;
    ItemOfState(t, w);
    JoinedIs(HotSet(i), AllExposures(i), w);
    if w.Credited? && w.a !in HotRows(i) { var h := Corrects(i, w.a); }
  }

  /** It raises the stamps of the hours it credits. */
  lemma DisjointRises(i: Input, t: State, u: State, rows: seq<Attributed>)
    requires OfInput(i, t) && Fresh(t, Stale({}, {})) && OfInput(i, u) && u.lakeRows == t.lakeRows + rows
    requires t.exposures <= u.exposures && t.rows <= u.rows
    requires forall e :: e in i.exposures ==> e in t.exposures
    requires forall y :: y in rows ==> y in ReconRows(i)
    requires HoursRecovered(t) !! HoursCredited(t, rows)
    ensures StampsRise(t, u)
  {
    hide HotRows, ReconRows, ItemsOf, HotItems, BothItems, RowAt, RowOf, MaxStamp, Fresh, FromLake, FromTheTwoPasses,
         UniqueExposures, ReconciledAt, HoursRecovered;
    ItemsGrow(t, u) by { FromInput(i, t); FromInput(i, u); }
    forall k | Published(t, k) && RowAt(u, k) != RowAt(t, k)
      ensures RowAt(t, k).Some? && RowAt(u, k).Some?
      ensures RowAt(t, k).value.reportedAt < RowAt(u, k).value.reportedAt
    {
      var before, after := ItemsAt(ItemsOf(t), k), ItemsAt(ItemsOf(u), k);
      RowAtIs(t, k);
      RowAtIs(u, k);
      SmallerGroup(ItemsOf(t), ItemsOf(u), k);
      var z := NewAt(t, u, k);
      NewItemIsNext(i, t, u, rows, z);
      assert k in HoursCredited(t, rows) && k !in HoursRecovered(t);
      NewIsLate(i, u, z);
      forall w | w in before ensures w.Stamp() < z.Stamp() {
        OldItemIsHotOrRecovered(i, t, w);
        ReconIsNewest(i, w, z);
      }
      MaxStampIs(before);
      MaxStampIs(after);
    }
  }

  lemma NewAt(t: State, u: State, k: Key) returns (z: Item)
    requires ItemsOf(t) <= ItemsOf(u) && RowAt(u, k) != RowAt(t, k)
    ensures z in ItemsOf(u) && z !in ItemsOf(t) && z.Key() == k
  {
    hide ItemsOf, RowOf;
    var before, after := ItemsAt(ItemsOf(t), k), ItemsAt(ItemsOf(u), k);
    assert before <= after && before != after;
    NothingLeft(after, before);
    z := Member(after - before);
  }

  lemma NewIsLate(i: Input, u: State, z: Item)
    requires OfInput(i, u) && z in ItemsOf(u) && z.Credited? && z.a in ReconRows(i)
    ensures z in BothItems(i) && z !in HotItems(i)
  {
    hide HotRows, ReconRows, ItemsOf, BothItems;
    ItemsLieBetween(i, u);
    RecoveredIsNotHot(i, z.a);
    JoinedIs(HotSet(i), AllExposures(i), z);
  }

  lemma NextIsExact(i: Input, t: State, more: seq<int>, u: State)
    requires Steady(i, t) && Honest(t) && OfInput(i, u) && Recording(u, Open({}, {}))
    requires t.exposures <= u.exposures && t.rows <= u.rows && ItemsOf(t) <= ItemsOf(u)
    requires t.dirty <= u.dirty && u.refreshed == t.refreshed && u.hourly == t.hourly
    requires u.lakeRows == t.lakeRows + Corrections(t, more)
    requires forall e :: e in i.exposures ==> e in t.exposures
    requires HoursRecovered(t) !! HoursCredited(t, Corrections(t, more))
    ensures Honest(Next(u, Refresh)) && Exact(Next(u, Refresh))
  {
    hide HotRows, ReconRows, Corrections, DirtyNow, FromLake, Backed, Covered, Honest, Exact, HoursCredited,
         HoursRecovered, ItemsOf, UniqueExposures, FromTheTwoPasses, LakeHoldsHot, StampsRise, Fresh;
    forall y | y in Corrections(t, more) ensures y in ReconRows(i) { NotThereYet(i, t, more, y); }
    DisjointRises(i, t, u, Corrections(t, more));
    GrowthKeepsHonest(t, u);
    assert Stamped(u);
    RefreshIsExact(u);
    InvAfterRefresh(u);
  }

  // ---------- one that shares an hour ----------

  /** The hour was published with the first recovery that credited it, and with its stamp,
      which no later one exceeds: its row is not replaced, and lacks what they credit. */
  ghost predicate Stuck(i: Input, t: State, k: Key) { exists group :: StuckOn(i, t, k, group) }

  ghost predicate StuckOn(i: Input, t: State, k: Key, group: set<Item>) {
    && group != {} && group < ItemsAt(ItemsOf(t), k) && RowOf(k, group) in FinalHourly(t.hourly)
    && HasRecovery(i, t, k)
  }

  ghost predicate HasRecovery(i: Input, t: State, k: Key) {
    exists z :: z in ItemsAt(ItemsOf(t), k) && z.Credited? && z.a in ReconRows(i)
  }

  lemma RecoveryIsLatest(i: Input, t: State, k: Key)
    requires OfInput(i, t) && HasRecovery(i, t, k)
    ensures RowAt(t, k).Some? && RowAt(t, k).value.reportedAt == ReconciledAt(i)
  {
    hide HotRows, ReconRows, ItemsOf, BothItems, RowAt, RowOf, MaxStamp, OfInput, ReconciledAt;
    var z :| z in ItemsAt(ItemsOf(t), k) && z.Credited? && z.a in ReconRows(i);
    var h := Corrects(i, z.a);
    ItemsLieBetween(i, t);
    RowAtIs(t, k);
    MaxStampIs(ItemsAt(ItemsOf(t), k));
    forall w | w in ItemsAt(ItemsOf(t), k) ensures w.Stamp() <= ReconciledAt(i) { NothingIsNewer(i, w); }
  }

  /** Its row stays what readers see. */
  lemma RowStays(i: Input, t: State, u: State, h: Hourly)
    requires OfInput(i, t) && Recording(t, Open({}, {})) && DirtyNow(t) == {} && HasRecovery(i, t, h.key)
    requires OfInput(i, u) && Recording(u, Open({}, {})) && u.refreshed == t.refreshed && u.hourly == t.hourly
    requires ItemsOf(t) <= ItemsOf(u) && h in FinalHourly(t.hourly)
    ensures h in FinalHourly(Next(u, Refresh).hourly) && HasRecovery(i, u, h.key)
  {
    hide HotRows, ReconRows, ItemsOf, RowAt, RowOf, OfInput, Recording, DirtyNow, Recomputed;
    assert HasRecovery(i, u, h.key);
    RecoveryIsLatest(i, t, h.key);
    RecoveryIsLatest(i, u, h.key);
    UnmovedIsClean(t, u, h.key);
    forall r | r in Recomputed(u) ensures r.key != h.key { RecomputedIs(u, r); }
  }

  lemma StuckIsStale(i: Input, t: State, k: Key)
    requires Stuck(i, t, k)
    ensures !Exact(t)
  {
    hide ReconRows, ItemsOf, RowOf, Rebuild, HasRecovery;
    var group :| StuckOn(i, t, k, group);
    var all := ItemsAt(ItemsOf(t), k);
    NothingLeft(all, group);
    var z := Member(all - group);
    RowsCount(k, group, all, z);
    RowKey(k, group);
    RebuildIs(ItemsOf(t), RowOf(k, group));
  }

  lemma StaysStuck(i: Input, t: State, u: State, k: Key)
    requires Stuck(i, t, k)
    requires OfInput(i, t) && Recording(t, Open({}, {})) && DirtyNow(t) == {}
    requires OfInput(i, u) && Recording(u, Open({}, {})) && u.refreshed == t.refreshed && u.hourly == t.hourly
    requires ItemsOf(t) <= ItemsOf(u)
    ensures Stuck(i, Next(u, Refresh), k)
  {
    hide HotRows, ReconRows, ItemsOf, RowOf, OfInput, Recording, DirtyNow, Next, HasRecovery;
    var group :| StuckOn(i, t, k, group);
    RowKey(k, group);
    RowStays(i, t, u, RowOf(k, group));
    RefreshFrame(u);
    SameItems(u, Next(u, Refresh));
    assert group < ItemsAt(ItemsOf(u), k);
    RecoveryAsWell(i, u, Next(u, Refresh), k);
    assert StuckOn(i, Next(u, Refresh), k, group);
  }

  lemma RecoveryAsWell(i: Input, u: State, v: State, k: Key)
    requires HasRecovery(i, u, k) && ItemsOf(v) == ItemsOf(u)
    ensures HasRecovery(i, v, k)
  {
    hide ReconRows, ItemsOf;
  }

  /** A second credit into an hour that was published exactly. */
  lemma GetsStuck(i: Input, t: State, u: State, x: Item, y: Item)
    requires Exact(t) && x in ItemsOf(t) && x.Credited? && x.a in ReconRows(i)
    requires y in ItemsOf(u) && y !in ItemsOf(t) && x.Key() == y.Key()
    requires OfInput(i, t) && Recording(t, Open({}, {})) && DirtyNow(t) == {}
    requires OfInput(i, u) && Recording(u, Open({}, {})) && u.refreshed == t.refreshed && u.hourly == t.hourly
    requires ItemsOf(t) <= ItemsOf(u)
    ensures Stuck(i, Next(u, Refresh), x.Key())
  {
    hide HotRows, ReconRows, ItemsOf, RowOf, OfInput, Recording, DirtyNow, Next, Rebuild;
    var k := x.Key();
    var group := ItemsAt(ItemsOf(t), k);
    assert x in group && y !in group && y in ItemsAt(ItemsOf(u), k) && group <= ItemsAt(ItemsOf(u), k);
    assert HasRecovery(i, t, k);
    RowKey(k, group);
    RebuildIs(ItemsOf(t), RowOf(k, group));
    RowStays(i, t, u, RowOf(k, group));
    RefreshFrame(u);
    SameItems(u, Next(u, Refresh));
    RecoveryAsWell(i, u, Next(u, Refresh), k);
    assert StuckOn(i, Next(u, Refresh), k, group);
  }

  lemma InItems(i: Input, s: State, x: Attributed, e: Exposure)
    requires OfInput(i, s) && x in s.rows && Credits(x, e) && e in i.exposures && e in s.exposures
    ensures Credited(x, e) in ItemsOf(s)
  {
    hide HotRows, ReconRows, ItemsOf;
    ItemOfState(s, Credited(x, e));
  }

  lemma NotInItems(s: State, y: Attributed, f: Exposure)
    requires FromLake(s) && y !in s.rows
    ensures Credited(y, f) !in ItemsOf(s)
  {
    hide ItemsOf;
    ItemOfState(s, Credited(y, f));
  }

  lemma NextGetsStuck(i: Input, t: State, more: seq<int>, u: State) returns (k: Key)
    requires Steady(i, t) && Exact(t) && DirtyNow(t) == {}
    requires OfInput(i, u) && Recording(u, Open({}, {})) && u.refreshed == t.refreshed && u.hourly == t.hourly
    requires ItemsOf(t) <= ItemsOf(u) && forall y :: y in Corrections(t, more) ==> y in u.rows
    requires forall e :: e in i.exposures ==> e in t.exposures && e in u.exposures
    requires !(HoursRecovered(t) !! HoursCredited(t, Corrections(t, more)))
    ensures Stuck(i, Next(u, Refresh), k)
  {
    hide HotRows, ReconRows, Corrections, DirtyNow, Backed, Covered, Exact, ItemsOf, UniqueExposures,
         LakeHoldsHot, Fresh, FromTheTwoPasses, Next, Stuck, Recording;
    k := Overlap(HoursRecovered(t), HoursCredited(t, Corrections(t, more)));
    var x, e :| x in t.lakeRows && x.path == Reconciled && e in t.lakeExposures && Credits(x, e) && KeyOf(e) == k;
    var y, f :| y in Corrections(t, more) && f in t.lakeExposures && Credits(y, f) && KeyOf(f) == k;
    FromInputExposures(i, t);
    NotThereYet(i, t, more, y);
    ReconciledIsRecon(i, t, x);
    CreditServed(i, t, x);
    InItems(i, t, x, e);
    InItems(i, u, y, f);
    FromInput(i, t);
    NotInItems(t, y, f);
    GetsStuck(i, t, u, Credited(x, e), Credited(y, f));
  }

  lemma ReconciledIsRecon(i: Input, t: State, x: Attributed)
    requires OfInput(i, t) && x in t.lakeRows
    ensures x.path == Reconciled <==> x in ReconRows(i)
  {
    hide HotRows, ReconRows, FromLake;
    HotIs(i);
    if x in ReconRows(i) { var h := Corrects(i, x); }
  }

  lemma FromInputExposures(i: Input, s: State)
    requires OfInput(i, s)
    ensures forall e :: e in s.lakeExposures ==> e in i.exposures
  {
  }

  // ---------- exactly when the next reconciliation is right ----------

  /** Over an exact rollup with clean keys, whatever part of a reconciliation the lake holds: a
      further reconciliation, of whatever partitions, ends exact if and only if it credits no
      campaign hour that a recovery has credited before. */
  lemma NextReconciliationIff(i: Input, t: State, more: seq<int>)
    requires Steady(i, t) && Honest(t) && Exact(t) && DirtyNow(t) == {}
    ensures Exact(ReconcileJob(t, more)) <==> HoursRecovered(t) !! HoursCredited(t, Corrections(t, more))
  {
    hide Steady, Honest, Exact, Stuck, ReconcileJob, HoursCredited, HoursRecovered, Corrections, OfInput, Recording,
         DirtyNow, Fresh, Next, ItemsOf;
    if Corrections(t, more) == [] {
      NothingRecoveredStays(t, more);
      NothingCredited(t, Corrections(t, more));
    } else {
      var u := NextLoads(i, t, more);
      if HoursRecovered(t) !! HoursCredited(t, Corrections(t, more)) {
        NextIsExact(i, t, more, u);
      } else {
        var k := NextGetsStuck(i, t, more, u);
        StuckIsStale(i, Next(u, Refresh), k);
      }
    }
  }

  /** A reconciliation that recovers nothing changes nothing. */
  lemma NothingRecoveredStays(s: State, more: seq<int>)
    requires Corrections(s, more) == []
    ensures ReconcileJob(s, more) == s
  {
    hide Corrections, LoadJob, DaysOf;
    NoRowsNoDays(Corrections(s, more));
    NothingToLoad(s, Corrections(s, more));
  }

  lemma NothingCredited(s: State, rows: seq<Attributed>)
    requires rows == []
    ensures HoursCredited(s, rows) == {}
  {
  }

  /** A replay of a lake of the two passes, whatever part of a reconciliation it holds. */
  lemma ReplayIsSteady(i: Input, s: State)
    requires OfInput(i, s) && LakeHoldsHot(i, s) && ReplayDays(s) != {}
    ensures var t := ReplayJob(s);
      && Steady(i, t) && Honest(t) && Exact(t) && DirtyNow(t) == {}
      && t.lakeExposures == s.lakeExposures && t.lakeRows == s.lakeRows
  {
    hide RunOf, LoadSteps, Next, OnlyLoads, OpenOf, PossibleRun, RisingRun, CurrentOf, HotRows, ReconRows,
         FromTheTwoPasses, UniqueExposures, Versioned, Backed, Covered, Honest, Stamped, Exact, Fresh, DaysAired,
         DaysOf, DirtyNow;
    var s0, days := Next(s, Truncate), ReplayDays(s);
    var steps, all := LoadSteps(SortedIds(days)), Stale(DaysAired(s.lakeExposures), DaysOf(s.lakeRows));
    var u := RunOf(s0, steps);
    TruncatedIsUnloaded(s);
    LoadStepsAre(SortedIds(days));
    LoadsPossible(s0, steps, Open({}, {}));
    FirstLoadsRise(s0, steps);
    UnloadedInv(s0);
    RunKeepsInv(s0, steps, Open({}, {}));
    InvLake(s0, Open({}, {}));
    LoadedBy(s0, steps);
    AllStale(s0, all);
    LoadingFreshens(s0, days, all);
    RefreshIsExact(u);
    InvAfterRefresh(u);
    InvLake(Next(u, Refresh), Open({}, {}));
    JobCleans(u);
    RefreshFrame(u);
    SameFresh(u, Next(u, Refresh));
  }

  /** So if the orchestrated reconciliation crashes between two partitions, having landed only
      the first of them, and a replay publishes what is there: the rollup is exact, and the
      reconciliation that lands the rest ends exact exactly when the two share no hour. */
  lemma PartLandedReplayIff(i: Input, s: State, first: seq<int>, more: seq<int>)
    requires HotLoaded(i, s) && ReplayDays(s) != {}
    ensures var t := ReplayJob(Next(s, LandRows(Corrections(s, first))));
      && Exact(t)
      && (Exact(ReconcileJob(t, more)) <==>
            HoursCredited(s, Corrections(s, first)) !! HoursCredited(s, Corrections(t, more)))
  {
    hide HotRows, ReconRows, Good, Steady, Honest, Exact, DirtyNow, Corrections, ReconcileJob, ReplayJob,
         HoursCredited, HoursRecovered, OfInput, LakeHoldsHot, Allowed, ReplayDays, Fresh;
    var s1 := Next(s, LandRows(Corrections(s, first)));
    var t := ReplayJob(s1);
    GoodParts(i, s);
    CorrectionsAllowed(i, s, first);
    AllowedKeepsLake(i, s, LandRows(Corrections(s, first)));
    MoreLanded(i, s, Corrections(s, first));
    ReplayIsSteady(i, s1);
    NextReconciliationIff(i, t, more);
    SteadyParts(i, t);
    RecoveredBy(i, s, first, t);
    SameHours(s, t, Corrections(t, more));
  }

  lemma MoreLanded(i: Input, s: State, rows: seq<Attributed>)
    ensures var t := Next(s, LandRows(rows));
      && t.lakeExposures == s.lakeExposures && t.lakeRows == s.lakeRows + rows
      && (LakeHoldsHot(i, s) ==> LakeHoldsHot(i, t)) && ReplayDays(s) <= ReplayDays(t)
  {
    hide HotRows;
  }

  lemma SameHours(s: State, t: State, rows: seq<Attributed>)
    requires s.lakeExposures == t.lakeExposures
    ensures HoursCredited(s, rows) == HoursCredited(t, rows)
  {
  }

  // ---------- partitions in turn ----------

  /** A warehouse that has loaded the hot pass and reconciled nothing. */
  ghost predicate HotLoaded(i: Input, s: State) { Good(i, s) && LakeHoldsHot(i, s) && SameSet(s.lakeRows, HotRows(i)) }

  /** One partition after another, each landed, loaded and refreshed. */
  ghost function InTurn(s: State, days: seq<int>): State {
    if days == [] then s else ReconcileJob(InTurn(s, Init(days)), [Last(days)])
  }

  /** What holds after the partitions `days`, be the rollup right or wrong. */
  ghost predicate Midway(i: Input, s: State, days: seq<int>, t: State) {
    && Steady(i, t) && (Corrections(s, days) != [] ==> DirtyNow(t) == {})
    && t.lakeExposures == s.lakeExposures && t.lakeRows == s.lakeRows + Corrections(s, days)
  }

  lemma BeforeAny(i: Input, s: State)
    requires HotLoaded(i, s)
    ensures Midway(i, s, [], s) && Honest(s) && Exact(s)
  {
    hide HotRows, ReconRows, PublishedRow, Backed, Covered, FromLake, Stamped, Honest, Exact, Fresh, DirtyNow;
    assert s.lakeRows + [] == s.lakeRows;
    GoodParts(i, s);
  }

  lemma EarlierIsRecon(i: Input, s: State, days: seq<int>, x: Attributed)
    requires HotLoaded(i, s) && x in Corrections(s, days)
    ensures x in ReconRows(i)
  {
    hide HotRows, ReconRows, Good, Corrections, Fresh, OfInput, LakeHoldsHot;
    GoodParts(i, s);
    NotThereYet(i, s, days, x);
  }

  /** What has been recovered are the partitions so far. */
  lemma RecoveredBy(i: Input, s: State, days: seq<int>, t: State)
    requires HotLoaded(i, s) && OfInput(i, t)
    requires t.lakeExposures == s.lakeExposures && t.lakeRows == s.lakeRows + Corrections(s, days)
    ensures HoursRecovered(t) == HoursCredited(s, Corrections(s, days))
  {
    hide HotRows, ReconRows, Good, Corrections, OfInput;
    forall x | x in t.lakeRows ensures x.path == Reconciled <==> x in Corrections(s, days) {
      ReconciledIsRecon(i, t, x);
      if x in Corrections(s, days) {
        EarlierIsRecon(i, s, days, x);
      } else if x in ReconRows(i) {
        RecoveredIsNotHot(i, x);
      }
    }
  }

  /** The next partition sees the candidates and the version it would have seen first. */
  lemma NextRows(i: Input, s: State, days: seq<int>, t: State, day: int)
    requires HotLoaded(i, s) && Midway(i, s, days, t) && day !in days
    ensures Corrections(t, [day]) == PartitionRows(s, day)
    ensures Corrections(s, days + [day]) == Corrections(s, days) + PartitionRows(s, day)
  {
    hide HotRows, ReconRows, LakeCandidates, OnDay, PassOver, ServedMaxIngest, Fresh, FromLake, Good, Backed, Covered,
         Stamped, DirtyNow;
    GoodParts(i, s);
    ReconciledAtIsFixed(i, s);
    ReconciledAtIsFixed(i, t);
    LandedElsewhere(days, day, s.lakeExposures, s.lakeRows, LONG_WINDOW, ReconciledAtFor(ServedMaxIngest(s)));
    OneDay(t, day);
    assert Init(days + [day]) == days && Last(days + [day]) == day;
  }

  /** No campaign hour is credited by two of the partitions. */
  ghost predicate NoSharedHour(s: State, days: seq<int>) {
    forall p, q :: 0 <= p < q < |days| ==>
      HoursCredited(s, PartitionRows(s, days[p])) !! HoursCredited(s, PartitionRows(s, days[q]))
  }

  lemma {:induction false} HoursOfAll(s: State, days: seq<int>)
    ensures forall k :: k in HoursCredited(s, Corrections(s, days)) <==>
              exists p :: 0 <= p < |days| && k in HoursCredited(s, PartitionRows(s, days[p]))
  {
    hide PartitionRows, ServedMaxIngest, LakeCandidates, OnDay, PassOver;
    if days != [] {
      HoursOfAll(s, Init(days));
      OneMorePartition(s, Init(days), Last(days));
      assert days == Init(days) + [Last(days)];
    }
  }

  lemma OneMorePartition(s: State, days: seq<int>, day: int)
    ensures HoursCredited(s, Corrections(s, days + [day])) ==
            HoursCredited(s, Corrections(s, days)) + HoursCredited(s, PartitionRows(s, day))
  {
    hide ServedMaxIngest, LakeCandidates, OnDay, PassOver;
    assert Init(days + [day]) == days && Last(days + [day]) == day;
  }

  lemma NoSharedHourStep(s: State, days: seq<int>, day: int)
    ensures NoSharedHour(s, days + [day]) <==>
            NoSharedHour(s, days) && HoursCredited(s, Corrections(s, days)) !! HoursCredited(s, PartitionRows(s, day))
  {
    hide HoursCredited, PartitionRows, Corrections;
    HoursOfAll(s, days);
    var all := days + [day];
    if NoSharedHour(s, all) {
      assert all[|days|] == day && forall p :: 0 <= p < |days| ==> all[p] == days[p];
      Disjoint(HoursCredited(s, Corrections(s, days)), HoursCredited(s, PartitionRows(s, day)));
    }
  }

  /** Exactly when: partitions reconciled one after another, each loaded and refreshed by
      itself, serve an exact rollup if and only if no two of them credit the same campaign
      hour. Nothing is asked of the number of partitions, or that they recover anything. */
  lemma PartitionsExactIff(i: Input, s: State, days: seq<int>)
    requires HotLoaded(i, s) && Distinct(days)
    ensures Exact(InTurn(s, days)) <==> NoSharedHour(s, days)
  {
    hide HotLoaded, Midway, Honest, Exact, NoSharedHour, Stuck;
    var k := Through(i, s, days);
    if !NoSharedHour(s, days) { StuckIsStale(i, InTurn(s, days), k); }
  }

  lemma {:induction false} Through(i: Input, s: State, days: seq<int>) returns (k: Key)
    requires HotLoaded(i, s) && Distinct(days)
    ensures Midway(i, s, days, InTurn(s, days))
    ensures if NoSharedHour(s, days) then Honest(InTurn(s, days)) && Exact(InTurn(s, days))
            else Stuck(i, InTurn(s, days), k) && DirtyNow(InTurn(s, days)) == {}
    decreases |days|
  {
    hide HotLoaded, Steady, Honest, Exact, NoSharedHour, Stuck, ReconcileJob, HoursCredited, HoursRecovered,
         PartitionRows, Corrections, OfInput, Recording, Stamped, DirtyNow, Fresh, Next, ItemsOf;
    k := Key(0, 0);
    if days == [] {
      BeforeAny(i, s);
      assert NoSharedHour(s, []) by { NothingShared(s); }
    } else {
      var before, day := Init(days), Last(days);
      var t := InTurn(s, before);
      assert days == before + [day] && day !in before;
      k := Through(i, s, before);
      NoSharedHourStep(s, before, day);
      NextRows(i, s, before, t, day);
      SteadyParts(i, t);
      RecoveredBy(i, s, before, t);
      SameHours(s, t, PartitionRows(s, day));
      if PartitionRows(s, day) == [] {
        NothingRecoveredStays(t, [day]);
        assert Corrections(s, before) + [] == Corrections(s, before);
        NothingCredited(s, PartitionRows(s, day));
      } else {
        var u := NextLoads(i, t, [day]);
        NextIsSteady(i, t, u);
        RefreshFrame(u);
        assert s.lakeRows + Corrections(s, before) + PartitionRows(s, day)
            == s.lakeRows + (Corrections(s, before) + PartitionRows(s, day));
        if !NoSharedHour(s, before) {
          StaysStuck(i, t, u, k);
        } else if HoursCredited(s, Corrections(s, before)) !! HoursCredited(s, PartitionRows(s, day)) {
          NextIsExact(i, t, [day], u);
        } else {
          SharedIsClean(s, before, PartitionRows(s, day));
          k := NextGetsStuck(i, t, [day], u);
        }
      }
    }
  }

  lemma SteadyParts(i: Input, t: State)
    requires Steady(i, t)
    ensures OfInput(i, t) && LakeHoldsHot(i, t) && Fresh(t, Stale({}, {})) && Recording(t, Open({}, {})) && Stamped(t)
  {
  }

  lemma SharedIsClean(s: State, days: seq<int>, rows: seq<Attributed>)
    requires !(HoursCredited(s, Corrections(s, days)) !! HoursCredited(s, rows))
    ensures Corrections(s, days) != []
  {
    hide Corrections;
  }

  lemma NothingShared(s: State)
    ensures NoSharedHour(s, [])
  {
  }

  /** So two partitions that credit the same hour end stale, although each lands exactly the
      rows of the whole pass. */
  lemma PartitionByPartitionIsLost(i: Input, s: State, first: int, second: int, x: Attributed, y: Attributed,
                                   e: Exposure, f: Exposure)
    requires HotLoaded(i, s) && first != second
    requires x in PartitionRows(s, first) && y in PartitionRows(s, second)
    requires e in i.exposures && f in i.exposures && Credits(x, e) && Credits(y, f) && KeyOf(e) == KeyOf(f)
    ensures !Exact(ReconcileJob(ReconcileJob(s, [first]), [second]))
  {
    hide HotRows, PartitionRows, ReconcileJob, Exact, Good;
    var both := [first, second];
    PartitionsExactIff(i, s, both);
    assert Init(both) == [first] && Init([first]) == [];
    assert InTurn(s, [first]) == ReconcileJob(InTurn(s, []), [first]);
    assert KeyOf(e) in HoursCredited(s, PartitionRows(s, both[0])) &&
      KeyOf(e) in HoursCredited(s, PartitionRows(s, both[1]));
  }

  // ---------- an input on which it happens ----------

  /** One exposure, and two visits of its household outside the hot window, on two days. */
  function ExampleExposure(): Exposure { Exposure(1, 0, 1000, 7, 100, 0, 0, 0, 500) }
  function ExampleVisit(cid: Id, day: int): Resolved {
    Resolved(Conversion(cid, day * DAY_MS, day * DAY_MS + 1000, 0, 0, SiteVisit, 0, None), 100, ByDevice, false, 1)
  }
  function Example(): Input { Input([ExampleExposure()], [ExampleVisit(1, 10), ExampleVisit(2, 20)], 2000) }

  lemma ExampleVisits(cid: Id, day: int)
    requires (cid == 1 && day == 10) || (cid == 2 && day == 20)
    ensures ExampleVisit(cid, day) in OneRow(Example().resolved)
  {
    hide OneRow;
    OneRowExactly(Example().resolved, ExampleVisit(cid, day));
  }

  /** The hot pass misses the visit, and the reconciliation credits it to the exposure. */
  lemma ExampleRecovers(cid: Id, day: int) returns (x: Attributed)
    requires (cid == 1 && day == 10) || (cid == 2 && day == 20)
    ensures x in ReconRows(Example()) && x.Day() == day && Credits(x, ExampleExposure())
  {
    hide HotRows, ReconRows, OneRow, EngineCandidate, Recovery, OracleCandidate, CandidateHouseholds;
    var i, c := Example(), ExampleVisit(cid, day);
    var a := EngineCandidate(i.exposures, i.resolved, c, i.lateness).row;
    ExampleVisits(cid, day);
    HotIs(i);
    UncreditedHasNoExposure(i, c);
    assert a in HotRows(i);
    LateConversionsOnlyLoseCredit(i.exposures, i.resolved, c, i.lateness);
    OutsideHotWindow(i, c);
    assert !a.attributed;
    assert ExampleExposure() in i.exposures && Eligible(ExampleExposure(), c, LONG_WINDOW);
    TwoPathCompleteness(i, c);
    x := FinalRow(i, a);
    assert Recovery(i, a) == Some(x);
    ReconIs(i);
    var h := Corrects(i, x);
    RecoveryKeepsCid(i, a);
    AscendingCidsDiffer(HotRows(i), h, a);
    var e :| IsBest(i.exposures, Choices(i, c), c, LONG_WINDOW, e) && x.exposureId == Some(e.exposureId);
    assert e == ExampleExposure();
  }

  lemma OutsideHotWindow(i: Input, c: Resolved)
    requires i == Example() && (c == ExampleVisit(1, 10) || c == ExampleVisit(2, 20))
    ensures !OracleCandidate(i.exposures, i.resolved, c).row.attributed
  {
    hide LastTouch, CandidateHouseholds;
    var own := ExposuresAt(i.exposures, c.householdId);
    CreditMeaning(own, c, HOT_WINDOW, []);
    forall e | e in own ensures !Eligible(e, c, HOT_WINDOW) { ExposuresAtIs(i.exposures, c.householdId, e); }
  }

  lemma ExampleIs()
    ensures UniqueExposures(Example().exposures) && ExampleExposure() in Example().exposures
  {
  }

  lemma FirstOverEmpty(i: Input)
    ensures EmptyWarehouse().lakeExposures + i.exposures == i.exposures
    ensures EmptyWarehouse().lakeRows + HotRows(i) == HotRows(i)
  {
    hide HotRows;
  }

  /** So on this input two partition runs leave a stale rollup, and one run does not. */
  lemma PartitionExample()
    ensures var t := EngineJob(EmptyWarehouse(), Example());
      && !Exact(ReconcileJob(ReconcileJob(t, [10]), [20]))
      && Exact(ReconcileJob(t, CandidateDays(t.lakeRows)))
  {
    hide HotRows, ReconRows, Inv, PipelineInv, EngineJob, ReconcileJob, Exact, Fresh, PartitionRows, CandidateDays,
         Example, ExampleExposure, ExampleVisit, UniqueExposures, AllOrNone, Credits, EmptyWarehouse;
    var i, e := Example(), EmptyWarehouse();
    var t := EngineJob(e, i);
    ExampleIs();
    EmptyIsGood(i);
    EngineJobIsGood(i, e);
    FirstOverEmpty(i);
    HotSetOnly(i, t);
    var x := ExampleRecovers(1, 10);
    var y := ExampleRecovers(2, 20);
    RecoveredInPartition(i, t, x);
    RecoveredInPartition(i, t, y);
    PartitionByPartitionIsLost(i, t, 10, 20, x, y, ExampleExposure(), ExampleExposure());
    ReconcileJobIsGood(i, t);
  }

  lemma ExampleMisses(a: Attributed)
    requires a in HotRows(Example())
    ensures !a.attributed
  {
    hide HotRows, OneRow, EngineCandidate, OracleCandidate, CandidateHouseholds;
    var i := Example();
    HotIs(i);
    InOneRow(i.resolved, a.res);
    LateConversionsOnlyLoseCredit(i.exposures, i.resolved, a.res, i.lateness);
    OutsideHotWindow(i, a.res);
  }

  lemma NoHotCredit(x: Item)
    ensures x.Credited? ==> x !in HotItems(Example())
  {
    hide HotRows, HotItems, Example;
    HotItemIs(Example(), x);
    if x.Credited? && x.a in HotRows(Example()) { ExampleMisses(x.a); }
  }

  /** Nor is the restated report versioned above the hot one there: the hot pass credited
      nothing, the reconciliation credits both visits, and both reports carry one version. */
  lemma SnapshotExample()
    ensures var t := EngineJob(EmptyWarehouse(), Example());
      var u := ReconcileJob(t, CandidateDays(t.lakeRows));
      SnapshotVersion(u, true) == SnapshotVersion(u, false) == ReconciledAt(Example()) && ReconRows(Example()) != []
  {
    hide HotRows, ReconRows, Inv, PipelineInv, EngineJob, ReconcileJob, Exact, Fresh, CandidateDays, Example,
         UniqueExposures, AllOrNone, EmptyWarehouse, HotItems, CreditStamps, SnapshotVersion, ReconciledAt, Settled;
    var i, e := Example(), EmptyWarehouse();
    var t := EngineJob(e, i);
    var u := ReconcileJob(t, CandidateDays(t.lakeRows));
    ExampleIs();
    EmptyIsGood(i);
    EngineJobIsGood(i, e);
    FirstOverEmpty(i);
    HotSetOnly(i, t);
    ReconcileJobIsGood(i, t);
    ServesBoth(i, u);
    GoodIsConsistent(i, u);
    SettledHolds(i, u);
    HotStamps(i, u);
    forall x: Item ensures x.Credited? ==> x !in HotItems(i) { NoHotCredit(x); }
    NoStamps(i, u);
    var x := ExampleRecovers(1, 10);
    SnapshotVersions(i, u);
  }

  lemma NoStamps(i: Input, s: State)
    requires CreditStamps(s, true) == set x | x in HotItems(i) && x.Credited? && Shown(x, true) :: x.Stamp()
    requires forall x: Item :: x.Credited? ==> x !in HotItems(i)
    ensures CreditStamps(s, true) == {}
  {
    hide CreditStamps, HotItems;
  }

  /** A recovery is landed by the partition of its own day. */
  lemma RecoveredInPartition(i: Input, s: State, x: Attributed)
    requires Good(i, s) && s.lakeExposures == i.exposures && s.lakeRows == HotRows(i) && x in ReconRows(i)
    ensures x in PartitionRows(s, x.Day())
  {
    hide HotRows, ReconRows, LakeCandidates, OnDay, PassOver, ServedMaxIngest, RecoverRow, ReconciledAt,
         CandidateDays, PublishedRow, Inv, Exact;
    ReconciledAtIsFixed(i, s);
    FirstPassLandsRecon(i, s.lakeExposures, s.lakeRows, x);
    RecoveredByDayIs(CandidateDays(s.lakeRows), s.lakeExposures, s.lakeRows, LONG_WINDOW, ReconciledAt(i), x);
    var d :| d in CandidateDays(s.lakeRows) &&
             x in PassOver(LakeCandidates(OnDay(s.lakeRows, d)), s.lakeExposures, LONG_WINDOW, ReconciledAt(i));
    PartitionIsPart(i, s, d, x);
  }
}
