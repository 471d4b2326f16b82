/** The two paths together: the rows that the hot pass and one reconciliation pass put in
    the lake, what is current there, and how it compares with one direct decision over
    the long window. */
module Protocol {
  import opened Rows
  import opened Orders
  import opened Leaf
  import opened Collapse
  import opened Engine
  import opened Lateness
  import opened Dataflow
  import opened Parity
  import opened Reconcile
  import opened Lake
  import opened Recover

  /** The engine's input streams. */
  datatype Input = Input(exposures: seq<Exposure>, resolved: seq<Resolved>, lateness: Time)

  /** What the engine lands. */
  function HotRows(i: Input): seq<Attributed> { EngineOutput(i.exposures, i.resolved, i.lateness) }

  function LatestIngest(exposures: seq<Exposure>): Time {
    if exposures == [] then 0
    else if |exposures| == 1 then exposures[0].ingestTime
    else
      var rest, e := LatestIngest(Init(exposures)), Last(exposures);
      if e.ingestTime > rest then e.ingestTime else rest
  }

  function LatestRowIngest(rows: seq<Attributed>): Time {
    if rows == [] then 0
    else if |rows| == 1 then rows[0].res.IngestTime()
    else
      var rest, a := LatestRowIngest(Init(rows)), Last(rows);
      if a.res.IngestTime() > rest then a.res.IngestTime() else rest
  }

  /** `max(ingest_time)` over both serving tables; the maximum of an empty table is the epoch. */
  function MaxIngest(exposures: seq<Exposure>, rows: seq<Attributed>): Time {
    var x, y := LatestIngest(exposures), LatestRowIngest(rows);
    if x > y then x else y
  }

  function ReconciledAtFor(maxIngest: Time): Time { maxIngest + RECONCILE_DELTA_MS }

  /** The version of every row of the pass. */
  function ReconciledAt(i: Input): Time { ReconciledAtFor(MaxIngest(i.exposures, HotRows(i))) }

  /** What the reconciliation pass lands. */
  function ReconRows(i: Input): seq<Attributed> {
    PassOver(LakeCandidates(HotRows(i)), i.exposures, LONG_WINDOW, ReconciledAt(i))
  }

  lemma {:induction false} LatestRowIngestIs(rows: seq<Attributed>)
    ensures forall a :: a in rows ==> a.res.IngestTime() <= LatestRowIngest(rows)
    ensures rows != [] ==> exists a :: a in rows && a.res.IngestTime() == LatestRowIngest(rows)
    ensures rows == [] ==> LatestRowIngest(rows) == 0
  {
    if |rows| > 1 {
      LatestRowIngestIs(Init(rows));
      assert rows == Init(rows) + [Last(rows)];
      assert Last(rows) in rows;
    } else if |rows| == 1 {
      assert rows[0] in rows;
    }
  }

  lemma {:induction false} LatestIngestIs(exposures: seq<Exposure>)
    ensures forall e :: e in exposures ==> e.ingestTime <= LatestIngest(exposures)
    ensures exposures != [] ==> exists e :: e in exposures && e.ingestTime == LatestIngest(exposures)
    ensures exposures == [] ==> LatestIngest(exposures) == 0
  {
    if |exposures| > 1 {
      LatestIngestIs(Init(exposures));
      assert exposures == Init(exposures) + [Last(exposures)];
      assert Last(exposures) in exposures;
    } else if |exposures| == 1 {
      assert exposures[0] in exposures;
    }
  }

  // ---------- the hot rows ----------

  lemma HotIs(i: Input)
    ensures CidsAscend(HotRows(i))
    ensures forall a :: a in HotRows(i) <==>
              a.res in OneRow(i.resolved) && a == EngineCandidate(i.exposures, i.resolved, a.res, i.lateness).row
    ensures forall a :: a in HotRows(i) ==> a.path == Hot && a.processedAt == a.res.IngestTime()
  {
    hide EngineCandidate, OneRow, Tabulate;
    var one, row := OneRow(i.resolved), EngineRow(i.exposures, i.resolved, i.lateness);
    OneRowDistinct(i.resolved);
    EngineRowKeepsConversion(i.exposures, i.resolved, i.lateness);
    TabulateSorted(one, row);
    TabulateIs(one, row);
    forall a | a in HotRows(i) ensures a.path == Hot && a.processedAt == a.res.IngestTime() {
      EngineRowStamp(i.exposures, i.resolved, a.res, i.lateness);
    }
  }

  lemma EngineRowStamp(exposures: seq<Exposure>, resolved: seq<Resolved>, c: Resolved, lateness: Time)
    ensures var a := EngineCandidate(exposures, resolved, c, lateness).row;
      a.path == Hot && a.processedAt == c.IngestTime()
  {
    hide Stream, OneRow, ProbedState;
  }

  lemma {:induction false} AscendingCidsDiffer(rows: seq<Attributed>, a: Attributed, b: Attributed)
    requires CidsAscend(rows) && a in rows && b in rows && a.Cid() == b.Cid()
    ensures a == b
  {
    var i :| 0 <= i < |rows| && rows[i] == a;
    var j :| 0 <= j < |rows| && rows[j] == b;
  }

  /** Every hot row is current among the hot rows. */
  lemma HotCandidates(i: Input)
    ensures forall a :: a in LakeCandidates(HotRows(i)) <==> a in HotRows(i) && !a.attributed
  {
    hide EngineCandidate, OneRow, LakeCandidates;
    HotIs(i);
    CandidatesAre(HotRows(i));
    forall a ensures a in LakeCandidates(HotRows(i)) <==> a in HotRows(i) && !a.attributed {
      CurrentIs(HotRows(i), a.Cid());
      if a in HotRows(i) {
        AscendingCidsDiffer(HotRows(i), a, CurrentOf(HotRows(i), a.Cid()).value);
      }
    }
  }

  // ---------- the reconciled rows ----------

  /** What the pass makes of one hot row. */
  function Recovery(i: Input, a: Attributed): Option<Attributed> {
    RecoverRow(a, AllByHousehold(i.exposures), LONG_WINDOW, ReconciledAt(i))
  }

  lemma ReconIs(i: Input)
    ensures forall x :: x in ReconRows(i) <==> exists a :: a in HotRows(i) && !a.attributed && Recovery(i, a) == Some(x)
  {
    hide RecoverRow, LakeCandidates, PassOver, EngineOutput;
    HotCandidates(i);
    forall x ensures x in ReconRows(i) <==> exists a :: a in HotRows(i) && !a.attributed && Recovery(i, a) == Some(x) {
      InPass(HotRows(i), i.exposures, LONG_WINDOW, ReconciledAt(i), x);
    }
  }

  /** The hot row that a reconciled row corrects: same conversion, strictly lower version. */
  lemma Corrects(i: Input, x: Attributed) returns (a: Attributed)
    requires x in ReconRows(i)
    ensures a in HotRows(i) && !a.attributed && Recovery(i, a) == Some(x)
    ensures x.Cid() == a.Cid() && x.res.conv == a.res.conv
    ensures x.path == Reconciled && x.attributed && x.processedAt == ReconciledAt(i) && a.processedAt < x.processedAt
  {
    hide RecoverRow, EngineOutput, ReconRows, EngineCandidate, OneRow;
    ReconIs(i);
    a :| a in HotRows(i) && !a.attributed && Recovery(i, a) == Some(x);
    RecoverRowMeans(a, AllByHousehold(i.exposures), LONG_WINDOW, ReconciledAt(i));
    HotIs(i);
    LatestRowIngestIs(HotRows(i));
  }

  /** The households that a hot row leaves open. */
  ghost predicate MayOwn(a: Attributed, h: Id) {
    if a.res.candidateCount > 1 then h in a.candidateHouseholds else h == a.res.householdId
  }

  lemma ExpandedHouseholds(a: Attributed)
    ensures SameConversion(ExpandRow(a))
    ensures forall h :: h in HouseholdSet(ExpandRow(a)) <==> MayOwn(a, h)
  {
    var rows, hhs := ExpandRow(a), a.candidateHouseholds;
    if a.res.candidateCount > 1 {
      forall h | h in hhs ensures h in HouseholdSet(rows) {
        var k :| 0 <= k < |hhs| && hhs[k] == h;
        assert rows[k] in rows;
      }
    }
  }

  /** A hot miss is recovered exactly when an exposure of a household that it leaves open aired
      in the ninety days up to the conversion. */
  lemma RecoveredIff(i: Input, a: Attributed)
    requires a in HotRows(i) && !a.attributed
    ensures (exists x :: x in ReconRows(i) && x.res.conv.conversionId == a.res.conv.conversionId) <==>
            exists e :: e in i.exposures && MayOwn(a, e.householdId)
                        && a.res.conv.eventTime - 7_776_000_000 <= e.eventTime <= a.res.conv.eventTime
  {
    hide HotRows, ReconRows, ExpandRow, AllByHousehold, RecoverGroup, Covers, SameConversion, HouseholdSet,
         MayOwn;
    ReconIs(i);
    RecoveryKeepsCid(i, a);
    ExpandedHouseholds(a);
    var rows := ExpandRow(a);
    if x :| x in ReconRows(i) && x.res.conv.conversionId == a.res.conv.conversionId {
      var h := Corrects(i, x);
      HotIs(i);
      AscendingCidsDiffer(HotRows(i), h, a);
      assert Recovery(i, a).Some?;
    }
    AllCovered(i.exposures, rows, LONG_WINDOW);
    if rows == [] {
      NothingToScore(i, a);
      assert forall e: Exposure :: e.householdId !in HouseholdSet(rows) by { NoHouseholds(); }
    } else {
      var c := rows[0];
      OwnCid(a, c);
      TwoLevelsAreFlat(i.exposures, AllByHousehold(i.exposures), rows, LONG_WINDOW, CandidatesFor(rows, a.Cid()),
                       ReconciledAt(i), c);
    }
  }

  lemma NothingToScore(i: Input, a: Attributed)
    requires ExpandRow(a) == []
    ensures Recovery(i, a).None?
  {
  }

  lemma NoHouseholds()
    ensures HouseholdSet([]) == {}
  {
  }

  /** The credit of a recovered row: the latest exposure of the ninety days up to the conversion
      over all the households that the hot row leaves open, ties going to the greater id; the
      row carries that exposure's household. */
  lemma RecoveredMeaning(i: Input, x: Attributed) returns (a: Attributed, e: Exposure)
    requires x in ReconRows(i)
    ensures a in HotRows(i) && !a.attributed && x.res.conv == a.res.conv
    ensures x.attributed && x.path == Reconciled && x.reason == None
    ensures e in i.exposures && x.exposureId == Some(e.exposureId) && x.res.householdId == e.householdId
    ensures MayOwn(a, e.householdId) && x.res.conv.eventTime - 7_776_000_000 <= e.eventTime <= x.res.conv.eventTime
    ensures forall f :: f in i.exposures && MayOwn(a, f.householdId)
                        && x.res.conv.eventTime - 7_776_000_000 <= f.eventTime <= x.res.conv.eventTime ==>
              f.eventTime < e.eventTime || (f.eventTime == e.eventTime && f.exposureId <= e.exposureId)
  {
    hide HotRows, ReconRows, ExpandRow, AllByHousehold, RecoverGroup, Covers, SameConversion, HouseholdSet,
         MayOwn;
    a := Corrects(i, x);
    var rows := ExpandRow(a);
    ExpandedHouseholds(a);
    AllCovered(i.exposures, rows, LONG_WINDOW);
    RecoveredFrom(rows, AllByHousehold(i.exposures), LONG_WINDOW, CandidatesFor(rows, a.Cid()), ReconciledAt(i));
    OwnCid(a, x.res);
    TwoLevelsAreFlat(i.exposures, AllByHousehold(i.exposures), rows, LONG_WINDOW, CandidatesFor(rows, a.Cid()),
                     ReconciledAt(i), x.res);
    e :| IsBest(i.exposures, HouseholdSet(rows), x.res, LONG_WINDOW, e)
         && x.exposureId == Some(e.exposureId) && x.res.householdId == e.householdId;
    forall f | f in i.exposures && MayOwn(a, f.householdId)
               && x.res.conv.eventTime - 7_776_000_000 <= f.eventTime <= x.res.conv.eventTime
      ensures f.eventTime < e.eventTime || (f.eventTime == e.eventTime && f.exposureId <= e.exposureId)
    {
      assert TouchLe(TouchOf(f), TouchOf(e));
    }
  }

  /** Its assists: the other exposures of that household in the window. */
  lemma RecoveredAssists(i: Input, x: Attributed)
    requires x in ReconRows(i)
    ensures forall p, q :: 0 <= p < q < |x.assists| ==> x.assists[p] < x.assists[q]
    ensures forall id :: id in x.assists <==>
              && Some(id) != x.exposureId
              && exists f :: f in i.exposures && f.householdId == x.res.householdId && f.exposureId == id
                             && x.res.conv.eventTime - 7_776_000_000 <= f.eventTime <= x.res.conv.eventTime
  {
    hide HotRows, ReconRows, ExpandRow, AllByHousehold, RecoverGroup, LastTouch, CandidatesFor;
    var a := Corrects(i, x);
    var rows, all := ExpandRow(a), AllByHousehold(i.exposures);
    RecoveredFrom(rows, all, LONG_WINDOW, CandidatesFor(rows, a.Cid()), ReconciledAt(i));
    var mine := Bucket(all, x.res.householdId);
    AssistsMeaning(mine, x.res, LONG_WINDOW, CandidatesFor(rows, a.Cid()));
    forall f ensures f in mine <==> f in i.exposures && f.householdId == x.res.householdId {
      AllByHouseholdIs(i.exposures, x.res.householdId, f);
    }
  }

  /** Its version: one second past the latest arrival of either table. */
  lemma RecoveredVersion(i: Input, x: Attributed)
    requires x in ReconRows(i)
    ensures forall e :: e in i.exposures ==> e.ingestTime + 1000 <= x.processedAt
    ensures forall a :: a in HotRows(i) ==> a.res.conv.ingestTime + 1000 <= x.processedAt
    ensures (exists e :: e in i.exposures && e.ingestTime + 1000 == x.processedAt)
         || (exists a :: a in HotRows(i) && a.res.conv.ingestTime + 1000 == x.processedAt)
  {
    hide HotRows, ReconRows, LatestIngest, LatestRowIngest, MayOwn;
    var h := Corrects(i, x);
    var a, e := RecoveredMeaning(i, x);
    LatestIngestIs(i.exposures);
    LatestRowIngestIs(HotRows(i));
    if LatestIngest(i.exposures) > LatestRowIngest(HotRows(i)) {
      var f :| f in i.exposures && f.ingestTime == LatestIngest(i.exposures);
    } else {
      var b :| b in HotRows(i) && b.res.IngestTime() == LatestRowIngest(HotRows(i));
      assert b.res.conv.ingestTime + 1000 == x.processedAt;
    }
  }

  // ---------- every lake that the two passes can produce ----------

  /** Rows of the two passes, landed in any order and any number of times. */
  ghost predicate FromTheTwoPasses(i: Input, rows: seq<Attributed>) {
    forall a :: a in rows ==> a in HotRows(i) || a in ReconRows(i)
  }

  /** Two rows of one conversion are the same row, or a hot miss and its correction. */
  lemma VersionsOf(i: Input, a: Attributed, b: Attributed)
    requires (a in HotRows(i) || a in ReconRows(i)) && (b in HotRows(i) || b in ReconRows(i)) && a.Cid() == b.Cid()
    ensures a.res.conv == b.res.conv
    ensures a.path == b.path ==> a == b
    ensures a.path == Hot && b.path == Reconciled ==>
              !a.attributed && b.attributed && a.processedAt < b.processedAt
  {
    hide RecoverRow, EngineOutput, ReconRows, EngineCandidate, OneRow;
    HotIs(i);
    var p, q := a, b;
    if a in ReconRows(i) { p := Corrects(i, a); }
    if b in ReconRows(i) { q := Corrects(i, b); }
    AscendingCidsDiffer(HotRows(i), p, q);
  }

  /** Lake safety: a conversion has at most one hot and one reconciled row, which share
      its event time, and no two rows share a version and a path. */
  lemma LakeIsConsistent(i: Input, rows: seq<Attributed>)
    requires FromTheTwoPasses(i, rows)
    ensures OneRowPerVersion(rows) && VersionsShareEventTime(rows)
    ensures forall a, b :: a in rows && b in rows && a.Cid() == b.Cid() && a.path == b.path ==> a == b
    ensures forall a, b :: a in rows && b in rows && a.Cid() == b.Cid() && a.processedAt == b.processedAt ==> a == b
  {
    hide RecoverRow, HotRows, ReconRows;
    forall a, b | a in rows && b in rows && a.Cid() == b.Cid()
      ensures a.res.EventTime() == b.res.EventTime()
      ensures a.path == b.path ==> a == b
      ensures a.processedAt == b.processedAt ==> a == b
    {
      VersionsOf(i, a, b);
      VersionsOf(i, b, a);
    }
  }

  /** A credited row is never superseded, so no credit is ever taken back. */
  lemma CreditIsFinal(i: Input, rows: seq<Attributed>, x: Attributed)
    requires FromTheTwoPasses(i, rows) && x in rows && x.attributed
    ensures CurrentOf(rows, x.Cid()) == Some(x)
  {
    hide RecoverRow, HotRows, ReconRows;
    LakeIsConsistent(i, rows);
    forall b | b in rows && b.Cid() == x.Cid() ensures VersionLe(b, x) {
      VersionsOf(i, b, x);
      VersionsOf(i, x, b);
    }
    CurrentExactly(rows, x);
  }

  /** A reconciled row stays current however often the hot rows are landed again. */
  lemma ReconciledNeverReverts(i: Input, rows: seq<Attributed>, more: seq<Attributed>, x: Attributed)
    requires FromTheTwoPasses(i, rows) && CurrentOf(rows, x.Cid()) == Some(x) && x.path == Reconciled
    requires forall a :: a in more ==> a in HotRows(i)
    ensures CurrentOf(rows + more, x.Cid()) == Some(x)
  {
    hide RecoverRow, HotRows, ReconRows;
    CurrentIs(rows, x.Cid());
    OnlyPassRowsAreReconciled(i, x);
    CreditIsFinal(i, rows + more, x);
  }

  lemma OnlyPassRowsAreReconciled(i: Input, x: Attributed)
    requires (x in HotRows(i) || x in ReconRows(i)) && x.path == Reconciled
    ensures x in ReconRows(i) && x.attributed
  {
    hide RecoverRow, ReconRows, EngineOutput, EngineCandidate, OneRow;
    HotIs(i);
    if x in ReconRows(i) { var a := Corrects(i, x); }
  }

  /** What is current after both passes. */
  function FinalRow(i: Input, a: Attributed): Attributed {
    if a.attributed then a
    else match Recovery(i, a) case Some(x) => x case None => a
  }

  /** Once both passes are in the lake, the current row of a conversion is its hot row if
      that is credited, else its recovery, else its hot row. */
  lemma CurrentAfterBoth(i: Input, rows: seq<Attributed>, a: Attributed)
    requires forall x :: x in rows <==> x in HotRows(i) || x in ReconRows(i)
    requires a in HotRows(i)
    ensures CurrentOf(rows, a.Cid()) == Some(FinalRow(i, a))
  {
    hide RecoverRow, HotRows, ReconRows, Recovery;
    var x := FinalRow(i, a);
    ReconIs(i);
    LakeIsConsistent(i, rows);
    if x != a {
      var b := Corrects(i, x);
      HotIs(i);
      assert x.Cid() == a.Cid() by { RecoveryKeepsCid(i, a); }
    }
    if x.attributed {
      CreditIsFinal(i, rows, x);
    } else {
      forall b | b in rows && b.Cid() == a.Cid() ensures VersionLe(b, a) {
        if b in ReconRows(i) {
          var h := Corrects(i, b);
          HotIs(i);
          AscendingCidsDiffer(HotRows(i), h, a);
        } else {
          VersionsOf(i, a, b);
          HotIs(i);
        }
      }
      CurrentExactly(rows, a);
    }
  }

  lemma RecoveryKeepsCid(i: Input, a: Attributed)
    ensures Recovery(i, a).Some? ==> Recovery(i, a).value.Cid() == a.Cid() && Recovery(i, a).value.attributed
  {
    hide RecoverRow;
    RecoverRowMeans(a, AllByHousehold(i.exposures), LONG_WINDOW, ReconciledAt(i));
  }

  /** A hot run that did not raise lands only valid rows. */
  lemma HotRowIsValid(i: Input, a: Attributed)
    requires !RunRaises(i.resolved) && a in HotRows(i)
    ensures CandidateSetMatchesCount(a) && ReasonAgrees(a)
  {
    hide Stream, OneRow, ProbedState, CandidateHouseholds, EngineOutput, EngineCandidate, EligibleTouches;
    HotIs(i);
    assert !Raises(a.res, CandidateHouseholds(i.resolved));
    var p := Position(i.exposures, i.resolved, a.res, i.lateness);
  }

  /** A recovered row keeps a valid candidate set. */
  lemma ReconRowIsValid(i: Input, x: Attributed)
    requires !RunRaises(i.resolved) && x in ReconRows(i)
    ensures CandidateSetMatchesCount(x)
  {
    hide HotRows, ReconRows, AllByHousehold, ExpandRow, CandidatesFor, RunRaises, EligibleTouches;
    var h := Corrects(i, x);
    HotRowIsValid(i, h);
    ValidGroup(h);
    RecoveredFrom(ExpandRow(h), AllByHousehold(i.exposures), LONG_WINDOW, CandidatesFor(ExpandRow(h), h.Cid()),
      ReconciledAt(i));
  }

  /** And no day of any reconciliation over such rows raises. */
  lemma ReconciliationNeverRaises(i: Input, rows: seq<Attributed>, day: int)
    requires !RunRaises(i.resolved) && FromTheTwoPasses(i, rows)
    ensures !PassRaises(LakeCandidates(OnDay(rows, day)))
  {
    hide HotRows, ReconRows, LakeCandidates, OnDay, CandidateSetMatchesCount, RunRaises, ReconcileRaises,
         ReasonAgrees;
    var dayRows := OnDay(rows, day);
    CandidatesAre(dayRows);
    forall a | a in LakeCandidates(dayRows) ensures CandidateSetMatchesCount(a) && ReasonAgrees(a) {
      CurrentIs(dayRows, a.Cid());
      OnDayIs(rows, day, a);
      if a in ReconRows(i) { var h := Corrects(i, a); }
      HotRowIsValid(i, a);
    }
    ValidCandidatesNeverRaise(LakeCandidates(dayRows));
  }

  // ---------- what each pass lands ----------

  lemma CandidatesDependOnSet(a: seq<Attributed>, b: seq<Attributed>)
    requires SameSet(a, b) && OneRowPerVersion(a)
    ensures LakeCandidates(a) == LakeCandidates(b)
  {
    hide OneRowPerVersion;
    assert CidsOf(a) == CidsOf(b);
    var cids := SortedIds(CidsOf(a));
    forall k | 0 <= k < |cids| ensures ReadCurrent(a)[k] == ReadCurrent(b)[k] {
      CurrentDependsOnSet(a, b, cids[k]);
    }
    assert ReadCurrent(a) == ReadCurrent(b);
  }

  /** What a row recovers depends on the set of exposures only. */
  lemma RecoverRowSameSet(a: Attributed, x: seq<Exposure>, y: seq<Exposure>, window: Time, at: Time)
    requires SameSet(x, y)
    ensures RecoverRow(a, AllByHousehold(x), window, at) == RecoverRow(a, AllByHousehold(y), window, at)
  {
    hide EligibleTouches, AllByHousehold, ExpandRow, CandidatesFor;
    forall c | c in ExpandRow(a)
      ensures EligibleTouches(Bucket(AllByHousehold(x), c.householdId), c, window)
           == EligibleTouches(Bucket(AllByHousehold(y), c.householdId), c, window)
    {
      forall e ensures e in Bucket(AllByHousehold(x), c.householdId) <==>
        e in Bucket(AllByHousehold(y), c.householdId)
      {
        AllByHouseholdIs(x, c.householdId, e);
        AllByHouseholdIs(y, c.householdId, e);
      }
      SameTouches(Bucket(AllByHousehold(x), c.householdId), Bucket(AllByHousehold(y), c.householdId), c, window);
    }
    RecoverGroupSameTouches(ExpandRow(a), AllByHousehold(x), AllByHousehold(y), window,
      CandidatesFor(ExpandRow(a), a.Cid()), at);
  }

  lemma PassDependsOnSet(candidates: seq<Attributed>, x: seq<Exposure>, y: seq<Exposure>, window: Time, at: Time)
    requires SameSet(x, y)
    ensures PassOver(candidates, x, window, at) == PassOver(candidates, y, window, at)
  {
    hide EligibleTouches, AllByHousehold, Expand, FirstSeen;
    var expanded := Expand(candidates);
    forall c | c in expanded
      ensures EligibleTouches(Bucket(AllByHousehold(x), c.householdId), c, window)
           == EligibleTouches(Bucket(AllByHousehold(y), c.householdId), c, window)
    {
      forall e ensures e in Bucket(AllByHousehold(x), c.householdId) <==>
        e in Bucket(AllByHousehold(y), c.householdId)
      {
        AllByHouseholdIs(x, c.householdId, e);
        AllByHouseholdIs(y, c.householdId, e);
      }
      SameTouches(Bucket(AllByHousehold(x), c.householdId), Bucket(AllByHousehold(y), c.householdId), c, window);
    }
    RecoveredSameTouches(FirstSeen(expanded), expanded, AllByHousehold(x), AllByHousehold(y), window, at);
  }

  /** A pass over a lake that holds the hot pass, landed any number of times in any
      order, collects exactly the reconciled rows. */
  lemma FirstPassLandsRecon(i: Input, exposures: seq<Exposure>, rows: seq<Attributed>, x: Attributed)
    requires SameSet(exposures, i.exposures) && SameSet(rows, HotRows(i))
    ensures x in RecoveredByDay(CandidateDays(rows), exposures, rows, LONG_WINDOW, ReconciledAt(i)) <==>
        x in ReconRows(i)
  {
    hide HotRows, LakeCandidates, PassOver, CandidateDays, RecoveredByDay, RecoverRow, OneRowPerVersion;
    LakeIsConsistent(i, rows);
    BucketedEqualsSinglePass(exposures, rows, LONG_WINDOW, ReconciledAt(i), x);
    CandidatesDependOnSet(rows, HotRows(i));
    PassDependsOnSet(LakeCandidates(rows), exposures, i.exposures, LONG_WINDOW, ReconciledAt(i));
  }

  lemma NothingAtAnyStamp(a: Attributed, held: map<Id, seq<Exposure>>, window: Time, s: Time, t: Time)
    ensures RecoverRow(a, held, window, s).None? <==> RecoverRow(a, held, window, t).None?
  {
  }

  /** A second pass over an unchanged lake lands nothing, whatever version it would use. */
  lemma SecondPassLandsNothing(i: Input, exposures: seq<Exposure>, rows: seq<Attributed>, at: Time)
    requires SameSet(exposures, i.exposures)
    requires forall x :: x in rows <==> x in HotRows(i) || x in ReconRows(i)
    ensures RecoveredByDay(CandidateDays(rows), exposures, rows, LONG_WINDOW, at) == []
  {
    hide HotRows, LakeCandidates, PassOver, CandidateDays, RecoveredByDay, RecoverRow, OneRowPerVersion, ReconRows;
    LakeIsConsistent(i, rows);
    forall x ensures x !in RecoveredByDay(CandidateDays(rows), exposures, rows, LONG_WINDOW, at) {
      BucketedEqualsSinglePass(exposures, rows, LONG_WINDOW, at, x);
      PassDependsOnSet(LakeCandidates(rows), exposures, i.exposures, LONG_WINDOW, at);
      InPass(rows, i.exposures, LONG_WINDOW, at, x);
      CandidatesAre(rows);
      forall a | a in LakeCandidates(rows) ensures RecoverRow(a, AllByHousehold(i.exposures), LONG_WINDOW, at).None? {
        StillMissing(i, rows, a);
        NothingAtAnyStamp(a, AllByHousehold(i.exposures), LONG_WINDOW, at, ReconciledAt(i));
      }
    }
    FirstIn(RecoveredByDay(CandidateDays(rows), exposures, rows, LONG_WINDOW, at));
  }

  lemma StillMissing(i: Input, rows: seq<Attributed>, a: Attributed)
    requires forall x :: x in rows <==> x in HotRows(i) || x in ReconRows(i)
    requires CurrentOf(rows, a.Cid()) == Some(a) && !a.attributed && a.path == Hot
    ensures a in HotRows(i) && Recovery(i, a).None?
  {
    hide HotRows, RecoverRow, ReconRows, Recovery;
    CurrentIs(rows, a.Cid());
    if a in ReconRows(i) { var h := Corrects(i, a); }
    CurrentAfterBoth(i, rows, a);
    RecoveryKeepsCid(i, a);
  }

  // ---------- two-path completeness ----------

  /** The households a conversion may be credited to. */
  function Choices(i: Input, c: Resolved): set<Id> {
    if c.candidateCount > 1 then
      set h | h in CandidateSetOf(c, CandidateHouseholds(i.resolved))
    else {c.householdId}
  }

  /** The hot credit of a certain conversion is already the long-window best. */
  lemma HotCreditIsBest(i: Input, c: Resolved)
    requires RunInTolerance(i.exposures, i.resolved, i.lateness)
    requires c in OneRow(i.resolved) && c.candidateCount == 1
    requires EngineCandidate(i.exposures, i.resolved, c, i.lateness).row.attributed
    ensures exists e :: IsBest(i.exposures, {c.householdId}, c, LONG_WINDOW, e)
              && EngineCandidate(i.exposures, i.resolved, c, i.lateness).row.exposureId == Some(e.exposureId)
  {
    hide EngineCandidate, LastTouch, OneRow, RunInTolerance, ExposuresAt, CandidateHouseholds;
    var mine := ExposuresAt(i.exposures, c.householdId);
    LateConversionsOnlyLoseCredit(i.exposures, i.resolved, c, i.lateness);
    assert OracleCandidate(i.exposures, i.resolved, c) == LastTouch(mine, c, HOT_WINDOW, []);
    WideningKeepsTheWinner(mine, c, HOT_WINDOW, LONG_WINDOW, []);
    CreditMeaning(mine, c, LONG_WINDOW, []);
    var long := LastTouch(mine, c, LONG_WINDOW, []);
    var e :| e in mine && Eligible(e, c, LONG_WINDOW)
             && TouchOf(e) == Touch(long.lastTouchTime.value, long.row.exposureId.value);
    forall f ensures f in mine <==> f in i.exposures && f.householdId == c.householdId {
      ExposuresAtIs(i.exposures, c.householdId, f);
    }
    assert IsBest(i.exposures, {c.householdId}, c, LONG_WINDOW, e);
  }

  lemma AllCovered(exposures: seq<Exposure>, rows: seq<Resolved>, window: Time)
    ensures Covers(AllByHousehold(exposures), exposures, rows, window)
  {
    hide AllByHousehold;
    forall r, e | r in rows && Eligible(e, r, window)
      ensures e in Bucket(AllByHousehold(exposures), r.householdId) <==>
          e in exposures && e.householdId == r.householdId
    {
      AllByHouseholdIs(exposures, r.householdId, e);
    }
  }

  /** A deferred or missed row explodes over exactly the conversion's choices. */
  lemma ExplodesOverChoices(i: Input, c: Resolved)
    requires c in OneRow(i.resolved) && !Raises(c, CandidateHouseholds(i.resolved))
    requires !EngineCandidate(i.exposures, i.resolved, c, i.lateness).row.attributed
    ensures var rows := ExpandRow(EngineCandidate(i.exposures, i.resolved, c, i.lateness).row);
      c in rows && SameConversion(rows) && HouseholdSet(rows) == Choices(i, c)
  {
    hide Stream, ProbedState, OneRow, CandidateHouseholds, LastTouch;
    var p := Position(i.exposures, i.resolved, c, i.lateness);
    var a := EngineCandidate(i.exposures, i.resolved, c, i.lateness).row;
    var rows, hhs := ExpandRow(a), CandidateSetOf(c, CandidateHouseholds(i.resolved));
    LastTouchKeepsConversion(ProbedState(Stream(i.exposures, OneRow(i.resolved), c.householdId), p, HOT_WINDOW,
      i.lateness),
                             c, HOT_WINDOW, []);
    if c.candidateCount > 1 {
      assert a.candidateHouseholds == hhs && |rows| == |hhs|;
      var k :| 0 <= k < |hhs| && hhs[k] == c.householdId;
      assert rows[k] == c;
      forall h ensures h in HouseholdSet(rows) <==> h in Choices(i, c) {
        if h in hhs {
          var j :| 0 <= j < |hhs| && hhs[j] == h;
          assert rows[j] in rows;
        }
      }
      SameMembers(HouseholdSet(rows), Choices(i, c));
    }
  }

  /** Two-path completeness: with exposures in tolerance and conversions arbitrarily late,
      what is current after the hot pass and one reconciliation is one direct decision
      over the long window and over every exposure of every household the conversion may
      belong to: credited exactly when something is eligible, to a latest exposure, and
      to that exposure's household. */
  lemma TwoPathCompleteness(i: Input, c: Resolved)
    requires RunInTolerance(i.exposures, i.resolved, i.lateness)
    requires c in OneRow(i.resolved) && !Raises(c, CandidateHouseholds(i.resolved))
    ensures var final := FinalRow(i, EngineCandidate(i.exposures, i.resolved, c, i.lateness).row);
      if exists e :: e in i.exposures && e.householdId in Choices(i, c) && Eligible(e, c, LONG_WINDOW) then
        final.attributed && exists e :: IsBest(i.exposures, Choices(i, c), c, LONG_WINDOW, e)
                                        && final.exposureId == Some(e.exposureId) &&
                                          final.res.householdId == e.householdId
      else !final.attributed && final.exposureId.None?
  {
    hide EngineCandidate, OneRow, RunInTolerance, RecoverGroup, CandidateHouseholds, ExpandRow, AllByHousehold,
         Raises;
    hide Covers, SameConversion;
    var a := EngineCandidate(i.exposures, i.resolved, c, i.lateness).row;
    UncreditedHasNoExposure(i, c);
    if a.attributed {
      HotCreditIsBest(i, c);
    } else {
      var rows := ExpandRow(a);
      ExplodesOverChoices(i, c);
      AllCovered(i.exposures, rows, LONG_WINDOW);
      TwoLevelsAreFlat(i.exposures, AllByHousehold(i.exposures), rows, LONG_WINDOW, CandidatesFor(rows, a.Cid()),
                       ReconciledAt(i), c);
      RecoveryKeepsCid(i, a);
    }
  }

  /** The households that a collapsed conversion may belong to, by the resolved rows. */
  ghost predicate MayBelongTo(resolved: seq<Resolved>, c: Resolved, h: Id) {
    if c.candidateCount > 1 then
      exists r :: r in resolved && r.candidateCount > 1 && r.conv.conversionId == c.conv.conversionId
                  && r.householdId == h
    else h == c.householdId
  }

  lemma ChoicesAre(i: Input, c: Resolved)
    requires c in OneRow(i.resolved)
    ensures forall h :: h in Choices(i, c) <==> MayBelongTo(i.resolved, c, h)
  {
    hide OneRow, CandidateHouseholds;
    InOneRow(i.resolved, c);
    CandidateSetMeaning(i.resolved, c.Cid());
  }

  /** The same, on the fields of the rows and of the lake: once it holds both passes, the newest
      row of a conversion is credited iff some household that it may belong to was shown
      something in the ninety days up to it, to the latest such exposure, ties going to the
      greater id, and to that exposure's household. */
  lemma TwoPathMeaning(i: Input, rows: seq<Attributed>, c: Resolved) returns (a: Attributed)
    requires RunInTolerance(i.exposures, i.resolved, i.lateness)
    requires c in OneRow(i.resolved) && !Raises(c, CandidateHouseholds(i.resolved))
    requires forall x :: x in rows <==> x in HotRows(i) || x in ReconRows(i)
    ensures a in rows && a.res.conv == c.conv && CurrentOf(rows, c.conv.conversionId) == Some(a)
    ensures forall b :: b in rows && b.res.conv.conversionId == c.conv.conversionId ==> b.processedAt <= a.processedAt
    ensures a.attributed <==>
            exists e :: e in i.exposures && MayBelongTo(i.resolved, c, e.householdId)
                        && c.conv.eventTime - 7_776_000_000 <= e.eventTime <= c.conv.eventTime
    ensures a.attributed ==>
              exists e :: IsLatestExposure(i, c, e)
                          && a.exposureId == Some(e.exposureId) && a.res.householdId == e.householdId
    ensures !a.attributed ==> a.exposureId == None
  {
    hide HotRows, ReconRows, OneRow, EngineCandidate, FinalRow, RunInTolerance, Raises, CandidateHouseholds, Choices,
         MayBelongTo;
    var hot := EngineCandidate(i.exposures, i.resolved, c, i.lateness).row;
    a := FinalRow(i, hot);
    UncreditedHasNoExposure(i, c);
    HotIs(i);
    assert hot in HotRows(i);
    CurrentAfterBoth(i, rows, hot);
    NewestOf(rows, hot.Cid());
    TwoPathCompleteness(i, c);
    ChoicesAre(i, c);
    FinalRowConversion(i, hot);
    if e :| IsBest(i.exposures, Choices(i, c), c, LONG_WINDOW, e) && a.exposureId == Some(e.exposureId)
            && a.res.householdId == e.householdId {
      BestIsLatest(i, c, e);
    }
  }

  /** `e` aired in the ninety days up to the conversion in a household that it may belong to, and
      nothing else that did comes after it. */
  ghost predicate IsLatestExposure(i: Input, c: Resolved, e: Exposure) {
    && e in i.exposures && MayBelongTo(i.resolved, c, e.householdId)
    && c.conv.eventTime - 7_776_000_000 <= e.eventTime <= c.conv.eventTime
    && forall f :: f in i.exposures && MayBelongTo(i.resolved, c, f.householdId)
                   && c.conv.eventTime - 7_776_000_000 <= f.eventTime <= c.conv.eventTime ==>
         f.eventTime < e.eventTime || (f.eventTime == e.eventTime && f.exposureId <= e.exposureId)
  }

  lemma BestIsLatest(i: Input, c: Resolved, e: Exposure)
    requires c in OneRow(i.resolved) && IsBest(i.exposures, Choices(i, c), c, LONG_WINDOW, e)
    ensures IsLatestExposure(i, c, e)
  {
    hide OneRow, Choices, MayBelongTo;
    ChoicesAre(i, c);
    forall f | f in i.exposures && MayBelongTo(i.resolved, c, f.householdId)
               && c.conv.eventTime - 7_776_000_000 <= f.eventTime <= c.conv.eventTime
      ensures f.eventTime < e.eventTime || (f.eventTime == e.eventTime && f.exposureId <= e.exposureId)
    {
      assert TouchLe(TouchOf(f), TouchOf(e));
    }
  }

  lemma FinalRowConversion(i: Input, a: Attributed)
    ensures FinalRow(i, a).res.conv == a.res.conv
  {
    hide RecoverRow;
    RecoverRowMeans(a, AllByHousehold(i.exposures), LONG_WINDOW, ReconciledAt(i));
  }

  lemma NewestOf(rows: seq<Attributed>, cid: Id)
    requires CurrentOf(rows, cid).Some?
    ensures CurrentOf(rows, cid).value in rows
    ensures forall b :: b in rows && b.res.conv.conversionId == cid ==>
              b.processedAt <= CurrentOf(rows, cid).value.processedAt
  {
    CurrentIs(rows, cid);
  }

  lemma UncreditedHasNoExposure(i: Input, c: Resolved)
    requires c in OneRow(i.resolved)
    ensures var a := EngineCandidate(i.exposures, i.resolved, c, i.lateness).row;
      a.res == c && (a.attributed ==> c.candidateCount == 1) && (!a.attributed ==> a.exposureId.None?)
  {
    hide Stream, ProbedState, OneRow, CandidateHouseholds;
    var p := Position(i.exposures, i.resolved, c, i.lateness);
  }

  /** With unique exposure ids, any two long-window bests agree, so the credit above is
      the one direct decision. */
  lemma DirectDecisionIsUnique(i: Input, c: Resolved, e: Exposure, f: Exposure)
    requires UniqueExposures(i.exposures)
    requires IsBest(i.exposures, Choices(i, c), c, LONG_WINDOW, e) &&
        IsBest(i.exposures, Choices(i, c), c, LONG_WINDOW, f)
    ensures e == f
  {
    BestIsUnique(i.exposures, Choices(i, c), c, LONG_WINDOW, e, f);
  }
}
