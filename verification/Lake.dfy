/** The append-only lake and its reads (lake/land_attributed.py, lake/read_attributed.py,
    lake/read_exposures.py, lake/maintenance.py). A table is the list of rows appended to
    it so far; one row per conversion is a question for the reader. */
module Lake {
  import opened Rows
  import opened Orders
  import opened Collapse
  import opened Dataflow

  // ---------- the current row ----------

  /** The order of `order by processed_at desc, path desc`, reconciled above hot. */
  predicate VersionLe(a: Attributed, b: Attributed) {
    a.processedAt < b.processedAt || (a.processedAt == b.processedAt && (a.path == Hot || b.path == Reconciled))
  }

  /** The latest version of a conversion; on a full tie, the first in scan order. */
  function CurrentOf(rows: seq<Attributed>, cid: Id): Option<Attributed> {
    if rows == [] then None
    else
      var prev, a := CurrentOf(Init(rows), cid), Last(rows);
      if a.Cid() == cid && (prev.None? || !VersionLe(a, prev.value)) then Some(a) else prev
  }

  function CidsOf(rows: seq<Attributed>): set<Id> { set a | a in rows :: a.Cid() }

  lemma {:induction false} CurrentIs(rows: seq<Attributed>, cid: Id)
    ensures CurrentOf(rows, cid).None? <==> cid !in CidsOf(rows)
    ensures CurrentOf(rows, cid).Some? ==> CurrentOf(rows, cid).value in rows && CurrentOf(rows, cid).value.Cid() == cid
    ensures forall a :: CurrentOf(rows, cid).Some? && a in rows && a.Cid() == cid ==>
        VersionLe(a, CurrentOf(rows, cid).value)
  {
    if rows != [] {
      CurrentIs(Init(rows), cid);
      assert rows == Init(rows) + [Last(rows)];
      assert forall x :: x in CidsOf(rows) <==> x in CidsOf(Init(rows)) || x == Last(rows).Cid();
    }
  }

  lemma {:induction false} CurrentAt(rows: seq<Attributed>, cid: Id) returns (p: nat)
    requires CurrentOf(rows, cid).Some?
    ensures p < |rows| && CurrentOf(rows, cid) == Some(rows[p]) && rows[p].Cid() == cid
    ensures forall q :: 0 <= q < |rows| && rows[q].Cid() == cid ==>
              VersionLe(rows[q], rows[p]) && (q < p ==> !VersionLe(rows[p], rows[q]))
  {
    var prev, n := CurrentOf(Init(rows), cid), |rows| - 1;
    CurrentIs(Init(rows), cid);
    forall q | 0 <= q < n
      ensures rows[q] == Init(rows)[q] && rows[q] in Init(rows) && rows[q].Cid() in CidsOf(Init(rows))
    {
    }
    if CurrentOf(rows, cid) == prev {
      p := CurrentAt(Init(rows), cid);
    } else {
      p := n;
    }
  }

  /** The current row, on the fields of the rows: of the rows of its conversion the one with the
      latest `processed_at`, at one instant a reconciled one before a hot one, and of full
      ties the first. */
  lemma CurrentMeaning(rows: seq<Attributed>, cid: Id)
    ensures CurrentOf(rows, cid).None? <==> forall a :: a in rows ==> a.res.conv.conversionId != cid
    ensures CurrentOf(rows, cid).Some? ==>
              exists p :: 0 <= p < |rows| && rows[p].res.conv.conversionId == cid
                && CurrentOf(rows, cid) == Some(rows[p])
                && forall q :: 0 <= q < |rows| && rows[q].res.conv.conversionId == cid ==>
                     || rows[q].processedAt < rows[p].processedAt
                     || (rows[q].processedAt == rows[p].processedAt
                         && (if rows[q].path == rows[p].path then p <= q else rows[p].path == Reconciled))
  {
    CurrentIs(rows, cid);
    assert forall a :: a in rows ==> a.Cid() in CidsOf(rows);
    if CurrentOf(rows, cid).Some? {
      var p := CurrentAt(rows, cid);
      assert forall q :: 0 <= q < |rows| && rows[q].res.conv.conversionId == cid ==> rows[q].Cid() == cid;
    }
  }

  /** A version and a path identify a row of a conversion. */
  ghost predicate OneRowPerVersion(rows: seq<Attributed>) {
    forall a, b :: a in rows && b in rows && a.Cid() == b.Cid() && a.processedAt == b.processedAt && a.path == b.path
      ==> a == b
  }

  /** Then the current row is the one with the latest version. */
  lemma CurrentExactly(rows: seq<Attributed>, a: Attributed)
    requires OneRowPerVersion(rows)
    ensures CurrentOf(rows, a.Cid()) == Some(a) <==>
            a in rows && forall b :: b in rows && b.Cid() == a.Cid() ==> VersionLe(b, a)
  {
    CurrentIs(rows, a.Cid());
    if a in rows && forall b :: b in rows && b.Cid() == a.Cid() ==> VersionLe(b, a) {
      assert a.Cid() in CidsOf(rows);
      var c := CurrentOf(rows, a.Cid()).value;
      assert VersionLe(c, a) && VersionLe(a, c);
    }
  }

  /** `read_current`: the current row of every conversion, by conversion id. */
  function ReadCurrent(rows: seq<Attributed>): (r: seq<Attributed>) {
    var cids := SortedIds(CidsOf(rows));
    seq(|cids|, i requires 0 <= i < |cids| =>
      CurrentIs(rows, cids[i]);
      CurrentOf(rows, cids[i]).value)
  }

  lemma ReadCurrentIs(rows: seq<Attributed>)
    ensures forall a :: a in ReadCurrent(rows) <==> CurrentOf(rows, a.Cid()) == Some(a)
    ensures forall i, j :: 0 <= i < j < |ReadCurrent(rows)| ==> ReadCurrent(rows)[i].Cid() < ReadCurrent(rows)[j].Cid()
    ensures forall a :: a in ReadCurrent(rows) ==> a in rows
  {
    var cids, r := SortedIds(CidsOf(rows)), ReadCurrent(rows);
    forall i | 0 <= i < |r| ensures CurrentOf(rows, cids[i]) == Some(r[i]) && r[i].Cid() == cids[i] && r[i] in rows {
      assert cids[i] in cids;
      CurrentIs(rows, cids[i]);
    }
    forall a ensures a in r <==> CurrentOf(rows, a.Cid()) == Some(a) {
      if CurrentOf(rows, a.Cid()) == Some(a) {
        CurrentIs(rows, a.Cid());
        assert a.Cid() in cids;
        var i :| 0 <= i < |cids| && cids[i] == a.Cid();
        assert r[i] == a;
      }
    }
  }

  /** The rows whose conversion happened on `day`. */
  function OnDay(rows: seq<Attributed>, day: int): seq<Attributed> {
    if rows == [] then []
    else OnDay(Init(rows), day) + (if Last(rows).Day() == day then [Last(rows)] else [])
  }

  lemma {:induction false} OnDayIs(rows: seq<Attributed>, day: int, a: Attributed)
    ensures a in OnDay(rows, day) <==> a in rows && a.Day() == day
  {
    if rows != [] {
      OnDayIs(Init(rows), day, a);
      assert rows == Init(rows) + [Last(rows)];
    }
  }

  /** Every version of a conversion carries its event time. */
  ghost predicate VersionsShareEventTime(rows: seq<Attributed>) {
    forall a, b :: a in rows && b in rows && a.Cid() == b.Cid() ==> a.res.EventTime() == b.res.EventTime()
  }

  lemma CurrentSnoc(rows: seq<Attributed>, a: Attributed, cid: Id)
    ensures CurrentOf(rows + [a], cid) ==
            if a.Cid() == cid && (CurrentOf(rows, cid).None? || !VersionLe(a, CurrentOf(rows, cid).value)) then Some(a)
            else CurrentOf(rows, cid)
  {
    assert Init(rows + [a]) == rows && Last(rows + [a]) == a;
  }

  lemma {:induction false} CurrentOnDay(rows: seq<Attributed>, day: int, cid: Id)
    requires forall a :: a in rows && a.Cid() == cid ==> a.Day() == day
    ensures CurrentOf(OnDay(rows, day), cid) == CurrentOf(rows, cid)
  {
    hide VersionLe;
    if rows != [] {
      var init, a := Init(rows), Last(rows);
      assert rows == init + [a];
      CurrentOnDay(init, day, cid);
      CurrentSnoc(init, a, cid);
      assert OnDay(init, day) + [] == OnDay(init, day);
      if a.Day() == day { CurrentSnoc(OnDay(init, day), a, cid); }
    }
  }

  /** Filtering by day before taking the current row changes nothing: pruning day
      partitions is output-invariant. */
  lemma DayPruneIsInvariant(rows: seq<Attributed>, day: int, a: Attributed)
    requires VersionsShareEventTime(rows)
    ensures a in ReadCurrent(OnDay(rows, day)) <==> a in ReadCurrent(rows) && a.Day() == day
  {
    ReadCurrentIs(rows);
    ReadCurrentIs(OnDay(rows, day));
    if a in ReadCurrent(OnDay(rows, day)) {
      OnDayIs(rows, day, a);
      CurrentOnDay(rows, day, a.Cid());
    }
    if a in ReadCurrent(rows) && a.Day() == day {
      CurrentOnDay(rows, day, a.Cid());
    }
  }

  /** The current rows are a function of the set of rows in the lake. */
  lemma CurrentDependsOnSet(a: seq<Attributed>, b: seq<Attributed>, cid: Id)
    requires SameSet(a, b) && OneRowPerVersion(a)
    ensures CurrentOf(a, cid) == CurrentOf(b, cid)
  {
    CurrentIs(a, cid);
    CurrentIs(b, cid);
    assert CidsOf(a) == CidsOf(b);
    if CurrentOf(a, cid).Some? {
      CurrentExactly(b, CurrentOf(a, cid).value);
    }
  }

  // ---------- candidates of a reconciliation pass ----------

  /** The current hot rows without a credit. */
  function Misses(rows: seq<Attributed>): seq<Attributed> {
    if rows == [] then []
    else
      var a := Last(rows);
      Misses(Init(rows)) + (if !a.attributed && a.path == Hot then [a] else [])
  }

  function LakeCandidates(rows: seq<Attributed>): seq<Attributed> { Misses(ReadCurrent(rows)) }

  lemma {:induction false} MissesIs(rows: seq<Attributed>, a: Attributed)
    ensures a in Misses(rows) <==> a in rows && !a.attributed && a.path == Hot
  {
    if rows != [] {
      MissesIs(Init(rows), a);
      assert rows == Init(rows) + [Last(rows)];
    }
  }

  lemma {:induction false} MissesAscend(rows: seq<Attributed>)
    requires forall i, j :: 0 <= i < j < |rows| ==> rows[i].Cid() < rows[j].Cid()
    ensures forall i, j :: 0 <= i < j < |Misses(rows)| ==> Misses(rows)[i].Cid() < Misses(rows)[j].Cid()
  {
    if rows != [] {
      MissesAscend(Init(rows));
      var prev := Misses(Init(rows));
      forall i | 0 <= i < |prev| ensures prev[i].Cid() < Last(rows).Cid() {
        assert prev[i] in prev;
        MissesIs(Init(rows), prev[i]);
        var j :| 0 <= j < |Init(rows)| && Init(rows)[j] == prev[i];
      }
    }
  }

  lemma CandidatesAre(rows: seq<Attributed>)
    ensures forall a :: a in LakeCandidates(rows) <==>
        CurrentOf(rows, a.Cid()) == Some(a) && !a.attributed && a.path == Hot
    ensures forall i, j :: 0 <= i < j < |LakeCandidates(rows)| ==>
              LakeCandidates(rows)[i].Cid() < LakeCandidates(rows)[j].Cid()
  {
    ReadCurrentIs(rows);
    MissesAscend(ReadCurrent(rows));
    forall a ensures a in LakeCandidates(rows) <==> a in ReadCurrent(rows) && !a.attributed && a.path == Hot {
      MissesIs(ReadCurrent(rows), a);
    }
  }

  lemma CandidatesOfDay(rows: seq<Attributed>, day: int, a: Attributed)
    requires VersionsShareEventTime(rows)
    ensures a in LakeCandidates(OnDay(rows, day)) <==> a in LakeCandidates(rows) && a.Day() == day
  {
    DayPruneIsInvariant(rows, day, a);
    MissesIs(ReadCurrent(rows), a);
    MissesIs(ReadCurrent(OnDay(rows, day)), a);
  }

  function DaysOf(rows: seq<Attributed>): set<int> { set a | a in rows :: a.Day() }

  /** The days that hold candidates, ascending. */
  function CandidateDays(rows: seq<Attributed>): seq<int> { SortedIds(DaysOf(LakeCandidates(rows))) }

  // ---------- exposure reads ----------

  function Itself(e: Exposure): Exposure { e }
  predicate ExposureIdLe(a: Exposure, b: Exposure) { a.exposureId <= b.exposureId }

  /** The rows a scan keeps: of the wanted households, in the half-open time range. */
  function Scan(exposures: seq<Exposure>, households: set<Id>, lo: Time, hi: Time): seq<Exposure> {
    if exposures == [] then []
    else
      var e := Last(exposures);
      Scan(Init(exposures), households, lo, hi) +
      (if e.householdId in households && lo <= e.eventTime < hi then [e] else [])
  }

  /** `select distinct ... where ... order by exposure_id`. */
  function ExposureQuery(exposures: seq<Exposure>, households: set<Id>, lo: Time, hi: Time): seq<Exposure> {
    var scan := Scan(exposures, households, lo, hi);
    Sort(KeepFirst(scan, Itself, |scan|), ExposureIdLe)
  }

  lemma {:induction false} ScanIs(exposures: seq<Exposure>, households: set<Id>, lo: Time, hi: Time, e: Exposure)
    ensures e in Scan(exposures, households, lo, hi) <==>
            e in exposures && e.householdId in households && lo <= e.eventTime < hi
  {
    if exposures != [] {
      ScanIs(Init(exposures), households, lo, hi, e);
      assert exposures == Init(exposures) + [Last(exposures)];
    }
  }

  lemma InExposureQuery(exposures: seq<Exposure>, households: set<Id>, lo: Time, hi: Time, e: Exposure)
    ensures e in ExposureQuery(exposures, households, lo, hi) <==>
            e in exposures && e.householdId in households && lo <= e.eventTime < hi
  {
    var scan := Scan(exposures, households, lo, hi);
    ScanIs(exposures, households, lo, hi, e);
    KeepFirstLosesNothing(scan, Itself);
    SameElements(ExposureQuery(exposures, households, lo, hi), KeepFirst(scan, Itself, |scan|));
  }

  predicate AscendById(s: seq<Exposure>) { forall p, q :: 0 <= p < q < |s| ==> s[p].exposureId <= s[q].exposureId }

  /** It reads the wanted exposures, each once, by exposure id. */
  lemma ExposureQueryIs(exposures: seq<Exposure>, households: set<Id>, lo: Time, hi: Time)
    ensures forall e :: e in ExposureQuery(exposures, households, lo, hi) <==>
              e in exposures && e.householdId in households && lo <= e.eventTime < hi
    ensures Distinct(ExposureQuery(exposures, households, lo, hi)) &&
        AscendById(ExposureQuery(exposures, households, lo, hi))
  {
    forall e { InExposureQuery(exposures, households, lo, hi, e); }
    ReadOnce(Scan(exposures, households, lo, hi), ExposureIdLe);
    SortedById(KeepFirst(Scan(exposures, households, lo, hi), Itself, |Scan(exposures, households, lo, hi)|));
  }

  /** `select distinct ... order by`: each row once. */
  lemma ReadOnce(scan: seq<Exposure>, le: (Exposure, Exposure) -> bool)
    ensures Distinct(Sort(KeepFirst(scan, Itself, |scan|), le))
  {
    var kept := KeepFirst(scan, Itself, |scan|);
    KeptKeysDiffer(scan, Itself, |scan|);
    assert Distinct(kept);
    SortKeepsDistinct(kept, Sort(kept, le));
  }

  lemma SortedById(rows: seq<Exposure>)
    ensures AscendById(Sort(rows, ExposureIdLe))
  {
    SortSorts(rows, ExposureIdLe);
  }

  /** The exposures of one day, in the sort order of the serving table. */
  function AiredOnDay(exposures: seq<Exposure>, day: int): seq<Exposure> {
    if exposures == [] then []
    else AiredOnDay(Init(exposures), day) + (if DayOf(Last(exposures).eventTime) == day then [Last(exposures)] else [])
  }

  predicate SortKeyLe(a: Exposure, b: Exposure) {
    a.campaignId < b.campaignId ||
    (a.campaignId == b.campaignId &&
      (a.eventTime < b.eventTime || (a.eventTime == b.eventTime && a.exposureId <= b.exposureId)))
  }

  /** The loader's read: `select distinct ... order by campaign_id, event_time, exposure_id`. */
  function DayQuery(exposures: seq<Exposure>, day: int): seq<Exposure> {
    var scan := AiredOnDay(exposures, day);
    Sort(KeepFirst(scan, Itself, |scan|), SortKeyLe)
  }

  lemma {:induction false} AiredOnDayIs(exposures: seq<Exposure>, day: int, e: Exposure)
    ensures e in AiredOnDay(exposures, day) <==> e in exposures && DayOf(e.eventTime) == day
  {
    if exposures != [] {
      AiredOnDayIs(Init(exposures), day, e);
      assert exposures == Init(exposures) + [Last(exposures)];
    }
  }

  lemma InDayQuery(exposures: seq<Exposure>, day: int, e: Exposure)
    ensures e in DayQuery(exposures, day) <==> e in exposures && DayOf(e.eventTime) == day
  {
    var scan := AiredOnDay(exposures, day);
    AiredOnDayIs(exposures, day, e);
    KeepFirstLosesNothing(scan, Itself);
    SameElements(DayQuery(exposures, day), KeepFirst(scan, Itself, |scan|));
  }

  predicate AscendBySortKey(s: seq<Exposure>) { forall p, q :: 0 <= p < q < |s| ==> SortKeyLe(s[p], s[q]) }

  /** It reads each exposure of the day, once, in the order of the serving table. */
  lemma DayQueryIs(exposures: seq<Exposure>, day: int)
    ensures forall e :: e in DayQuery(exposures, day) <==> e in exposures && DayOf(e.eventTime) == day
    ensures Distinct(DayQuery(exposures, day)) && AscendBySortKey(DayQuery(exposures, day))
  {
    forall e { InDayQuery(exposures, day, e); }
    ReadOnce(AiredOnDay(exposures, day), SortKeyLe);
    SortedBySortKey(KeepFirst(AiredOnDay(exposures, day), Itself, |AiredOnDay(exposures, day)|));
  }

  /** That order, on the fields of the rows. */
  lemma DayQueryInOrder(exposures: seq<Exposure>, day: int, p: nat, q: nat)
    requires p < q < |DayQuery(exposures, day)|
    ensures var (e, f) := (DayQuery(exposures, day)[p], DayQuery(exposures, day)[q]);
      && day * 86_400_000 <= e.eventTime < (day + 1) * 86_400_000
      && (|| e.campaignId < f.campaignId
          || (e.campaignId == f.campaignId && e.eventTime < f.eventTime)
          || (e.campaignId == f.campaignId && e.eventTime == f.eventTime && e.exposureId <= f.exposureId))
  {
    hide DayQuery, Distinct;
    DayQueryIs(exposures, day);
    var e := DayQuery(exposures, day)[p];
    assert e in DayQuery(exposures, day);
    CalendarIs(e.eventTime, day);
    assert SortKeyLe(e, DayQuery(exposures, day)[q]);
  }

  lemma SortedBySortKey(rows: seq<Exposure>)
    ensures AscendBySortKey(Sort(rows, SortKeyLe))
  {
    SortSorts(rows, SortKeyLe);
  }

  lemma {:induction false} Once<T>(s: seq<T>)
    requires Distinct(s)
    ensures forall x :: multiset(s)[x] <= 1
  {
    if s != [] {
      assert s == Init(s) + [Last(s)];
      Once(Init(s));
      assert Last(s) !in Init(s);
    }
  }

  lemma SortKeepsDistinct<T>(a: seq<T>, b: seq<T>)
    requires multiset(a) == multiset(b) && Distinct(a)
    ensures Distinct(b)
  {
    Once(a);
    forall p, q | 0 <= p < q < |b| ensures b[p] != b[q] {
      assert b == b[..q] + [b[q]] + b[q + 1..];
      assert b[p] in b[..q];
      assert multiset(b)[b[q]] <= 1;
    }
  }

  /** Of each wanted household, exactly its exposures in `[lo, hi)`. */
  ghost predicate HoldsExposures(byHousehold: map<Id, seq<Exposure>>, exposures: seq<Exposure>, households: set<Id>,
                                 lo: Time, hi: Time)
  {
    forall h, e :: e in Bucket(byHousehold, h) <==>
      h in households && e in exposures && e.householdId == h && lo <= e.eventTime < hi
  }

  /** Each household's exposures, once each, by exposure id. */
  ghost predicate ListsOnce(byHousehold: map<Id, seq<Exposure>>) {
    forall h :: h in byHousehold ==> Distinct(byHousehold[h]) && AscendById(byHousehold[h])
  }

  lemma {:induction false} OwnOnce(rows: seq<Exposure>, h: Id)
    requires Distinct(rows) && AscendById(rows)
    ensures Distinct(ExposuresAt(rows, h)) && AscendById(ExposuresAt(rows, h))
  {
    if rows != [] {
      OwnOnce(Init(rows), h);
      var prev := ExposuresAt(Init(rows), h);
      forall p | 0 <= p < |prev| ensures prev[p] != Last(rows) && prev[p].exposureId <= Last(rows).exposureId {
        ExposuresAtIs(Init(rows), h, prev[p]);
        var k :| 0 <= k < |Init(rows)| && Init(rows)[k] == prev[p];
        assert rows[k] == prev[p];
      }
    }
  }

  /** One scan, grouped by household. */
  method ReadExposuresByHousehold(exposures: seq<Exposure>, households: set<Id>, lo: Time, hi: Time)
    returns (byHousehold: map<Id, seq<Exposure>>)
    ensures byHousehold.Keys <= households
    ensures HoldsExposures(byHousehold, exposures, households, lo, hi) && ListsOnce(byHousehold)
  {
    hide ExposureQuery, Distinct, AscendById, ExposuresAt;
    if households == {} {
      byHousehold := map[];
      assert forall h :: Bucket(byHousehold, h) == [];
      return;
    }
    var rows := ExposureQuery(exposures, households, lo, hi);
    byHousehold := GroupExposures(rows);
    ExposureQueryIs(exposures, households, lo, hi);
    forall h | h in byHousehold ensures Distinct(byHousehold[h]) && AscendById(byHousehold[h]) {
      OwnOnce(rows, h);
      assert Bucket(byHousehold, h) == ExposuresAt(rows, h);
    }
    forall h, e ensures e in Bucket(byHousehold, h) <==>
                        h in households && e in exposures && e.householdId == h && lo <= e.eventTime < hi
    {
      ExposuresAtIs(rows, h, e);
    }
    forall h | h in byHousehold ensures h in households {
      var e := byHousehold[h][0];
      assert e in Bucket(byHousehold, h);
      ExposuresAtIs(rows, h, e);
    }
  }
}
