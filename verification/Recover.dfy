/** The bucket-aligned pass (reconcile/reconcile.py:189-236): one day at a time, one
    bucket of households at a time, reading only the exposures that can matter, against
    one in-memory pass over everything. */
module Recover {
  import opened Rows
  import opened Orders
  import opened Leaf
  import opened Collapse
  import opened Dataflow
  import opened Parity
  import opened Resolve
  import opened Reconcile
  import opened Lake

  // ---------- one conversion, from its deferred row ----------

  /** What reconciliation makes of one candidate row. */
  function RecoverRow(a: Attributed, exposuresBy: map<Id, seq<Exposure>>, window: Time,
      reconciledAt: Time): Option<Attributed>
  {
    RecoverGroup(ExpandRow(a), exposuresBy, window, CandidatesFor(ExpandRow(a), a.Cid()), reconciledAt)
  }

  ghost predicate CidsAscend(rows: seq<Attributed>) {
    forall i, j :: 0 <= i < j < |rows| ==> rows[i].Cid() < rows[j].Cid()
  }

  lemma {:induction false} GroupOfAppend(x: seq<Resolved>, y: seq<Resolved>, cid: Id)
    ensures GroupOf(x + y, cid) == GroupOf(x, cid) + GroupOf(y, cid)
  {
    if y == [] {
      assert x + y == x;
    } else {
      GroupOfAppend(x, Init(y), cid);
      assert Init(x + y) == x + Init(y) && Last(x + y) == Last(y);
    }
  }

  lemma {:induction false} GroupOfAll(rows: seq<Resolved>, cid: Id)
    requires forall r :: r in rows ==> r.Cid() == cid
    ensures GroupOf(rows, cid) == rows
  {
    if rows != [] {
      assert rows == Init(rows) + [Last(rows)];
      GroupOfAll(Init(rows), cid);
    }
  }

  lemma {:induction false} GroupOfNone(rows: seq<Resolved>, cid: Id)
    requires forall r :: r in rows ==> r.Cid() != cid
    ensures GroupOf(rows, cid) == []
  {
    if rows != [] {
      assert rows == Init(rows) + [Last(rows)];
      GroupOfNone(Init(rows), cid);
    }
  }

  lemma {:induction false} NoGroup(rows: seq<Attributed>, cid: Id)
    requires forall a :: a in rows ==> a.Cid() != cid
    ensures GroupOf(Expand(rows), cid) == []
  {
    hide GroupOf, ExpandRow;
    if rows == [] {
      GroupOfNone([], cid);
    } else {
      assert rows == Init(rows) + [Last(rows)];
      NoGroup(Init(rows), cid);
      GroupOfAppend(Expand(Init(rows)), ExpandRow(Last(rows)), cid);
      forall r | r in ExpandRow(Last(rows)) ensures r.Cid() != cid { OwnCid(Last(rows), r); }
      GroupOfNone(ExpandRow(Last(rows)), cid);
    }
  }

  /** A conversion's group among the expanded rows is exactly its own expansion. */
  lemma {:induction false} GroupIsExpansion(rows: seq<Attributed>, a: Attributed)
    requires CidsAscend(rows) && a in rows
    ensures GroupOf(Expand(rows), a.Cid()) == ExpandRow(a)
  {
    hide GroupOf, ExpandRow;
    var last := Last(rows);
    assert rows == Init(rows) + [last];
    GroupOfAppend(Expand(Init(rows)), ExpandRow(last), a.Cid());
    forall r | r in ExpandRow(last) ensures r.Cid() == last.Cid() { OwnCid(last, r); }
    forall b | b in Init(rows) ensures b.Cid() < last.Cid() {
      var i :| 0 <= i < |Init(rows)| && Init(rows)[i] == b;
    }
    if a == last {
      GroupOfAll(ExpandRow(last), a.Cid());
      NoGroup(Init(rows), a.Cid());
    } else {
      GroupOfNone(ExpandRow(last), a.Cid());
      GroupIsExpansion(Init(rows), a);
    }
  }

  lemma RecoverConversionIs(rows: seq<Attributed>, a: Attributed, exposuresBy: map<Id, seq<Exposure>>, window: Time,
                            reconciledAt: Time)
    requires CidsAscend(rows) && a in rows
    ensures RecoverConversion(Expand(rows), a.Cid(), exposuresBy, window, reconciledAt)
         == RecoverRow(a, exposuresBy, window, reconciledAt)
  {
    hide Expand, ExpandRow, RecoverGroup, GroupOf, CandidatesFor;
    GroupIsExpansion(rows, a);
    CandidatesAreOwn(rows, a);
  }

  lemma CandidatesAreOwn(rows: seq<Attributed>, a: Attributed)
    requires CidsAscend(rows) && a in rows
    ensures CandidatesFor(Expand(rows), a.Cid()) == CandidatesFor(ExpandRow(a), a.Cid())
  {
    hide Expand, ExpandRow, GroupOf;
    var all, own := Expand(rows), ExpandRow(a);
    GroupIsExpansion(rows, a);
    forall r ensures (r in all && r.Cid() == a.Cid()) <==> r in own {
      GroupOfIs(all, a.Cid(), r);
      if r in own { OwnCid(a, r); }
    }
    assert FanOut(all, a.Cid()) == FanOut(own, a.Cid());
    assert a.Cid() in AmbiguousIds(all) <==> a.Cid() in AmbiguousIds(own);
  }

  lemma OwnCid(a: Attributed, r: Resolved)
    requires r in ExpandRow(a)
    ensures r.Cid() == a.Cid() && r.conv == a.res.conv && r.candidateCount == a.res.candidateCount
  {
  }

  /** The pass recovers exactly what each candidate row recovers. */
  lemma RecoveredRows(rows: seq<Attributed>, exposuresBy: map<Id, seq<Exposure>>, window: Time, reconciledAt: Time,
                      x: Attributed)
    requires CidsAscend(rows)
    ensures x in Recovered(FirstSeen(Expand(rows)), Expand(rows), exposuresBy, window, reconciledAt) <==>
            exists a :: a in rows && RecoverRow(a, exposuresBy, window, reconciledAt) == Some(x)
  {
    hide ExpandRow, RecoverGroup, RecoverConversion, Expand, RecoverRow;
    var all := Expand(rows);
    var cids := FirstSeen(all);
    RecoveredIs(cids, all, exposuresBy, window, reconciledAt, x);
    if cid :| cid in cids && RecoverConversion(all, cid, exposuresBy, window, reconciledAt) == Some(x) {
      var r :| r in all && r.Cid() == cid;
      ExpandIs(rows, r);
      var a :| a in rows && r in ExpandRow(a);
      OwnCid(a, r);
      RecoverConversionIs(rows, a, exposuresBy, window, reconciledAt);
    }
    if a :| a in rows && RecoverRow(a, exposuresBy, window, reconciledAt) == Some(x) {
      RecoverConversionIs(rows, a, exposuresBy, window, reconciledAt);
      RecoverRowMeans(a, exposuresBy, window, reconciledAt);
      ExpandIs(rows, x.res);
      assert a.Cid() in cids;
    }
  }

  lemma RecoverRowMeans(a: Attributed, exposuresBy: map<Id, seq<Exposure>>, window: Time, reconciledAt: Time)
    ensures var got := RecoverRow(a, exposuresBy, window, reconciledAt);
      got.Some? ==>
        && got.value.res in ExpandRow(a) && got.value.Cid() == a.Cid() && got.value.res.conv == a.res.conv
        && got.value.attributed && got.value.path == Reconciled && got.value.processedAt == reconciledAt
  {
    RecoveredFrom(ExpandRow(a), exposuresBy, window, CandidatesFor(ExpandRow(a), a.Cid()), reconciledAt);
  }

  // ---------- one day ----------

  function AllByHousehold(exposures: seq<Exposure>): map<Id, seq<Exposure>> {
    map h | h in (set e | e in exposures :: e.householdId) :: ExposuresAt(exposures, h)
  }

  lemma AllByHouseholdIs(exposures: seq<Exposure>, h: Id, e: Exposure)
    ensures e in Bucket(AllByHousehold(exposures), h) <==> e in exposures && e.householdId == h
  {
    ExposuresAtIs(exposures, h, e);
  }

  /** A row's reason agrees with its candidate count. */
  predicate ReasonAgrees(a: Attributed) {
    a.reason.None? || a.reason.value == (if a.res.candidateCount > 1 then AmbiguousIp else StateMiss)
  }

  /** The candidate set of an exploded row is the set it was exploded from. */
  lemma OwnCandidates(a: Attributed)
    requires CandidateSetMatchesCount(a)
    ensures CandidatesFor(ExpandRow(a), a.Cid()) == a.candidateHouseholds
  {
    var own, hhs := ExpandRow(a), a.candidateHouseholds;
    if a.res.candidateCount > 1 {
      forall h ensures h in FanOut(own, a.Cid()) <==> h in hhs { ExplodedHouseholds(a, h); }
      ExplodedHouseholds(a, a.res.householdId);
      AscendingUnique(SortedIds(FanOut(own, a.Cid())), hhs);
      var r :| r in own && r.candidateCount > 1 && r.Cid() == a.Cid();
      assert a.Cid() in AmbiguousIds(own);
    } else {
      assert AmbiguousIds(own) == {};
    }
  }

  lemma ExplodedHouseholds(a: Attributed, h: Id)
    requires a.res.candidateCount > 1
    ensures h in FanOut(ExpandRow(a), a.Cid()) <==> h in a.candidateHouseholds
  {
    var own, hhs := ExpandRow(a), a.candidateHouseholds;
    if h in hhs {
      var k :| 0 <= k < |hhs| && hhs[k] == h;
      assert own[k] in own;
    }
  }

  /** A row that satisfies the candidate-set invariant is exploded, and scored, without raising. */
  lemma ValidGroup(a: Attributed)
    requires CandidateSetMatchesCount(a)
    ensures !GroupRaises(ExpandRow(a), CandidatesFor(ExpandRow(a), a.Cid()))
  {
    hide CandidatesFor, Ascending;
    OwnCandidates(a);
    forall r | r in ExpandRow(a) ensures CandidateSetMatchesCount(Unattributed(r, a.candidateHouseholds).row) {}
  }

  /** So a pass over valid rows raises nowhere. */
  lemma ValidCandidatesNeverRaise(rows: seq<Attributed>)
    requires CidsAscend(rows) && forall a :: a in rows ==> CandidateSetMatchesCount(a) && ReasonAgrees(a)
    ensures !PassRaises(rows)
  {
    hide ExpandRow, GroupOf, Expand, CandidatesFor, GroupRaises, FirstSeen;
    var all := Expand(rows);
    forall cid | cid in FirstSeen(all) ensures !GroupRaises(GroupOf(all, cid), CandidatesFor(all, cid)) {
      var r :| r in all && r.Cid() == cid;
      ExpandIs(rows, r);
      var a :| a in rows && r in ExpandRow(a);
      OwnCid(a, r);
      GroupIsExpansion(rows, a);
      CandidatesAreOwn(rows, a);
      ValidGroup(a);
    }
  }

  /** The pass over given candidate rows, every exposure in memory. */
  function PassOver(candidates: seq<Attributed>, exposures: seq<Exposure>, window: Time,
      reconciledAt: Time): seq<Attributed>
  {
    var expanded := Expand(candidates);
    Recovered(FirstSeen(expanded), expanded, AllByHousehold(exposures), window, reconciledAt)
  }

  ghost predicate PassRaises(candidates: seq<Attributed>) {
    (exists a :: a in candidates && !ReasonAgrees(a)) || ReconcileRaises(Expand(candidates))
  }

  /** When a pass raises, on the fields of its candidate rows: some row gives the wrong reason,
      or was deferred with a set of households, not empty, whose size is not its candidate
      count. Whether the row's own household is in the set, and in which order the set is
      listed, is lost in the explosion. */
  lemma PassRaisesIff(rows: seq<Attributed>)
    requires CidsAscend(rows)
    ensures PassRaises(rows) <==>
            exists a :: a in rows &&
              (|| (a.reason == Some(AmbiguousIp) && a.res.candidateCount == 1)
               || (a.reason == Some(StateMiss) && a.res.candidateCount > 1)
               || (a.res.candidateCount > 1 && a.candidateHouseholds != []
                   && |set h | h in a.candidateHouseholds| != a.res.candidateCount))
  {
    hide ExpandRow, GroupOf, Expand, CandidatesFor, GroupRaises, FirstSeen;
    var all := Expand(rows);
    forall a | a in rows
      ensures GroupRaises(ExpandRow(a), CandidatesFor(ExpandRow(a), a.Cid())) ==> a.Cid() in FirstSeen(all)
      ensures GroupRaises(GroupOf(all, a.Cid()), CandidatesFor(all, a.Cid())) <==>
              GroupRaises(ExpandRow(a), CandidatesFor(ExpandRow(a), a.Cid()))
      ensures GroupRaises(ExpandRow(a), CandidatesFor(ExpandRow(a), a.Cid())) <==>
              a.res.candidateCount > 1 && a.candidateHouseholds != []
              && |set h | h in a.candidateHouseholds| != a.res.candidateCount
    {
      GroupIsExpansion(rows, a);
      CandidatesAreOwn(rows, a);
      OwnGroupRaisesIff(a);
      if GroupRaises(ExpandRow(a), CandidatesFor(ExpandRow(a), a.Cid())) {
        var r := FirstExploded(a);
        ExpandIs(rows, r);
      }
    }
    forall cid | cid in FirstSeen(all) ensures exists a :: a in rows && a.Cid() == cid {
      var r :| r in all && r.Cid() == cid;
      ExpandIs(rows, r);
      var a :| a in rows && r in ExpandRow(a);
      OwnCid(a, r);
    }
  }

  lemma FirstExploded(a: Attributed) returns (r: Resolved)
    requires a.res.candidateCount > 1 && a.candidateHouseholds != []
    ensures r in ExpandRow(a) && r.Cid() == a.Cid()
  {
    r := ExpandRow(a)[0];
  }

  lemma OwnGroupRaisesIff(a: Attributed)
    ensures GroupRaises(ExpandRow(a), CandidatesFor(ExpandRow(a), a.Cid())) <==>
            a.res.candidateCount > 1 && a.candidateHouseholds != []
            && |set h | h in a.candidateHouseholds| != a.res.candidateCount
  {
    var own, hhs := ExpandRow(a), a.candidateHouseholds;
    if a.res.candidateCount > 1 {
      var all := set h | h in hhs;
      forall h ensures h in FanOut(own, a.Cid()) <==> h in all { ExplodedHouseholds(a, h); }
      SameMembers(FanOut(own, a.Cid()), all);
      if hhs != [] {
        var r := FirstExploded(a);
        assert a.Cid() in AmbiguousIds(own);
        assert |CandidatesFor(own, a.Cid())| == |all|;
        if |hhs| == 1 { OneMember(hhs); }
      }
    } else {
      assert AmbiguousIds(own) == {};
    }
  }

  lemma OneMember(s: seq<Id>)
    requires |s| == 1
    ensures |set x | x in s| == 1
  {
    assert (set x | x in s) == {s[0]};
  }

  /** The households of `rows` that fall in bucket `b`. */
  function InBucket(rows: seq<Resolved>, bucketOf: Id -> int, b: int): set<Id> {
    set r | r in rows && bucketOf(r.householdId) == b :: r.householdId
  }

  /** Group the expanded rows' households by bucket. */
  method HouseholdsByBucket(expanded: seq<Resolved>, bucketOf: Id -> int) returns (byBucket: map<int, set<Id>>)
    ensures forall b :: Members(byBucket, b) == InBucket(expanded, bucketOf, b)
  {
    byBucket := map[];
    for i := 0 to |expanded|
      invariant forall b :: Members(byBucket, b) == InBucket(expanded[..i], bucketOf, b)
    {
      var h := expanded[i].householdId;
      assert expanded[..i + 1] == expanded[..i] + [expanded[i]];
      forall b { OneMoreInBucket(expanded[..i], expanded[i], bucketOf, b); }
      byBucket := byBucket[bucketOf(h) := Members(byBucket, bucketOf(h)) + {h}];
    }
    assert expanded[..|expanded|] == expanded;
  }

  lemma OneMoreInBucket(rows: seq<Resolved>, r: Resolved, bucketOf: Id -> int, b: int)
    ensures InBucket(rows + [r], bucketOf, b)
         == InBucket(rows, bucketOf, b) + (if bucketOf(r.householdId) == b then {r.householdId} else {})
  {
  }

  /** `dict.update` of two reads over different households. */
  lemma UpdateHolds(a: map<Id, seq<Exposure>>, b: map<Id, seq<Exposure>>, exposures: seq<Exposure>, x: set<Id>,
      y: set<Id>, lo: Time, hi: Time)
    requires a.Keys <= x && b.Keys <= y && x !! y
    requires HoldsExposures(a, exposures, x, lo, hi) && HoldsExposures(b, exposures, y, lo, hi)
    ensures HoldsExposures(a + b, exposures, x + y, lo, hi)
  {
    forall h, e ensures e in Bucket(a + b, h) <==>
                        h in x + y && e in exposures && e.householdId == h && lo <= e.eventTime < hi
    {
      assert Bucket(a + b, h) == if h in y then Bucket(b, h) else Bucket(a, h) by {
        if h in y { assert Bucket(a, h) == []; }
      }
    }
  }

  /** The households of `rows` that fall in one of `buckets`. */
  function InBuckets(rows: seq<Resolved>, bucketOf: Id -> int, buckets: seq<int>): set<Id> {
    set r | r in rows && bucketOf(r.householdId) in buckets :: r.householdId
  }

  lemma OneMoreBucket(rows: seq<Resolved>, bucketOf: Id -> int, buckets: seq<int>, b: int)
    requires b !in buckets
    ensures InBuckets(rows, bucketOf, buckets + [b]) == InBuckets(rows, bucketOf, buckets) + InBucket(rows, bucketOf, b)
    ensures InBuckets(rows, bucketOf, buckets) !! InBucket(rows, bucketOf, b)
  {
    Disjoint(InBuckets(rows, bucketOf, buckets), InBucket(rows, bucketOf, b));
    SameMembers(InBuckets(rows, bucketOf, buckets + [b]),
      InBuckets(rows, bucketOf, buckets) + InBucket(rows, bucketOf, b));
  }

  /** Every household falls in a bucket that holds something. */
  lemma EveryBucket(rows: seq<Resolved>, bucketOf: Id -> int, byBucket: map<int, set<Id>>)
    requires forall b :: Members(byBucket, b) == InBucket(rows, bucketOf, b)
    ensures InBuckets(rows, bucketOf, SortedIds(byBucket.Keys)) == HouseholdSet(rows)
  {
    forall r | r in rows ensures bucketOf(r.householdId) in byBucket.Keys {
      assert r.householdId in InBucket(rows, bucketOf, bucketOf(r.householdId));
      assert r.householdId in Members(byBucket, bucketOf(r.householdId));
    }
    SameMembers(InBuckets(rows, bucketOf, SortedIds(byBucket.Keys)), HouseholdSet(rows));
  }

  /** Bucket by bucket, read the wanted households' exposures in `[lo, hi)`. */
  method ReadBuckets(exposures: seq<Exposure>, expanded: seq<Resolved>, bucketOf: Id -> int, lo: Time, hi: Time)
    returns (byHousehold: map<Id, seq<Exposure>>)
    ensures HoldsExposures(byHousehold, exposures, HouseholdSet(expanded), lo, hi)
  {
    hide HouseholdSet, InBucket, InBuckets, HoldsExposures, ListsOnce;
    var byBucket := HouseholdsByBucket(expanded, bucketOf);
    var buckets := SortedIds(byBucket.Keys);
    byHousehold := map[];
    NothingRead(exposures, expanded, bucketOf, lo, hi);
    for i := 0 to |buckets|
      invariant byHousehold.Keys <= InBuckets(expanded, bucketOf, buckets[..i])
      invariant HoldsExposures(byHousehold, exposures, InBuckets(expanded, bucketOf, buckets[..i]), lo, hi)
    {
      var b := buckets[i];
      assert b in buckets;
      assert byBucket[b] == Members(byBucket, b) == InBucket(expanded, bucketOf, b);
      assert buckets[..i + 1] == buckets[..i] + [b];
      OneMoreBucket(expanded, bucketOf, buckets[..i], b);
      var part := ReadExposuresByHousehold(exposures, byBucket[b], lo, hi);
      UpdateHolds(byHousehold, part, exposures, InBuckets(expanded, bucketOf, buckets[..i]), byBucket[b], lo, hi);
      byHousehold := byHousehold + part;
    }
    assert buckets[..|buckets|] == buckets;
    EveryBucket(expanded, bucketOf, byBucket);
  }

  lemma NothingRead(exposures: seq<Exposure>, expanded: seq<Resolved>, bucketOf: Id -> int, lo: Time, hi: Time)
    ensures HoldsExposures(map[], exposures, InBuckets(expanded, bucketOf, []), lo, hi)
  {
    var none: map<Id, seq<Exposure>> := map[];
    assert forall h :: Bucket(none, h) == [];
    assert InBuckets(expanded, bucketOf, []) == {};
  }

  method RecoverDay(exposures: seq<Exposure>, rows: seq<Attributed>, bucketOf: Id -> int, day: int, reconciledAt: Time,
                    window: Time)
    returns (r: Result<seq<Attributed>>)
    ensures r.ValueError? <==> PassRaises(LakeCandidates(OnDay(rows, day)))
    ensures r.Ok? ==> r.value == PassOver(LakeCandidates(OnDay(rows, day)), exposures, window, reconciledAt)
  {
    hide LakeCandidates, OnDay, Expand, Recovered, FirstSeen, ReconcileRaises, AllByHousehold, EligibleTouches;
    var start := day * DAY_MS;
    var candidates := LakeCandidates(OnDay(rows, day));
    for i := 0 to |candidates|
      invariant forall j :: 0 <= j < i ==> ReasonAgrees(candidates[j])
    {
      if !ReasonAgrees(candidates[i]) {
        assert candidates[i] in candidates;
        return ValueError;
      }
    }
    var expanded := ExpandCandidates(candidates);
    var byHousehold := ReadBuckets(exposures, expanded, bucketOf, start - window, start + DAY_MS);
    r := Match(expanded, byHousehold, window, reconciledAt);
    forall c | c in expanded
      ensures EligibleTouches(Bucket(byHousehold, c.householdId), c, window)
           == EligibleTouches(Bucket(AllByHousehold(exposures), c.householdId), c, window)
    {
      ExpandedOnDay(rows, day, c);
      PruneKeepsTouches(exposures, expanded, byHousehold, start, c, window);
    }
    RecoveredSameTouches(FirstSeen(expanded), expanded, byHousehold, AllByHousehold(exposures), window, reconciledAt);
  }

  lemma ExpandedOnDay(rows: seq<Attributed>, day: int, c: Resolved)
    requires c in Expand(LakeCandidates(OnDay(rows, day)))
    ensures DayOf(c.EventTime()) == day && day * DAY_MS <= c.EventTime() < day * DAY_MS + DAY_MS
  {
    hide LakeCandidates, OnDay, Expand, ExpandRow;
    var dayRows := OnDay(rows, day);
    ExpandIs(LakeCandidates(dayRows), c);
    var a :| a in LakeCandidates(dayRows) && c in ExpandRow(a);
    OwnCid(a, c);
    CandidatesAre(dayRows);
    CurrentIs(dayRows, a.Cid());
    OnDayIs(rows, day, a);
  }

  /** The half-open prune `[day - window, day + 1)` drops nothing eligible. */
  lemma PruneKeepsTouches(exposures: seq<Exposure>, expanded: seq<Resolved>, byHousehold: map<Id, seq<Exposure>>,
                          start: Time, c: Resolved, window: Time)
    requires c in expanded && start <= c.EventTime() < start + DAY_MS
    requires HoldsExposures(byHousehold, exposures, HouseholdSet(expanded), start - window, start + DAY_MS)
    ensures EligibleTouches(Bucket(byHousehold, c.householdId), c, window)
         == EligibleTouches(Bucket(AllByHousehold(exposures), c.householdId), c, window)
  {
    hide AllByHousehold, EligibleTouches;
    var h := c.householdId;
    forall e | Eligible(e, c, window)
      ensures e in Bucket(byHousehold, h) <==> e in Bucket(AllByHousehold(exposures), h)
    {
      AllByHouseholdIs(exposures, h, e);
    }
    SameTouches(Bucket(byHousehold, h), Bucket(AllByHousehold(exposures), h), c, window);
  }

  lemma {:induction false} RecoveredSameTouches(cids: seq<Id>, candidates: seq<Resolved>, a: map<Id, seq<Exposure>>,
                                                b: map<Id, seq<Exposure>>, window: Time, reconciledAt: Time)
    requires forall c :: c in candidates ==>
               EligibleTouches(Bucket(a, c.householdId), c, window) ==
                 EligibleTouches(Bucket(b, c.householdId), c, window)
    ensures Recovered(cids, candidates, a, window, reconciledAt) == Recovered(cids, candidates, b, window, reconciledAt)
  {
    hide EligibleTouches, RecoverGroup, GroupOf;
    if cids != [] {
      RecoveredSameTouches(Init(cids), candidates, a, b, window, reconciledAt);
      var group := GroupOf(candidates, Last(cids));
      forall c | c in group
        ensures EligibleTouches(Bucket(a, c.householdId), c, window) ==
            EligibleTouches(Bucket(b, c.householdId), c, window)
      {
        GroupOfIs(candidates, Last(cids), c);
      }
      RecoverGroupSameTouches(group, a, b, window, CandidatesFor(candidates, Last(cids)), reconciledAt);
    }
  }

  // ---------- the whole pass ----------

  /** What `run` collects: the recovered rows of each day, one day after another. */
  function RecoveredByDay(days: seq<int>, exposures: seq<Exposure>, rows: seq<Attributed>, window: Time,
                          reconciledAt: Time): seq<Attributed>
  {
    if days == [] then []
    else
      RecoveredByDay(Init(days), exposures, rows, window, reconciledAt) +
      PassOver(LakeCandidates(OnDay(rows, Last(days))), exposures, window, reconciledAt)
  }

  lemma {:induction false} RecoveredByDayIs(days: seq<int>, exposures: seq<Exposure>, rows: seq<Attributed>,
      window: Time, reconciledAt: Time, x: Attributed)
    ensures x in RecoveredByDay(days, exposures, rows, window, reconciledAt) <==>
            exists d :: d in days && x in PassOver(LakeCandidates(OnDay(rows, d)), exposures, window, reconciledAt)
  {
    hide PassOver, LakeCandidates;
    if days != [] {
      RecoveredByDayIs(Init(days), exposures, rows, window, reconciledAt, x);
      assert days == Init(days) + [Last(days)];
      if x in PassOver(LakeCandidates(OnDay(rows, Last(days))), exposures, window, reconciledAt) {
        assert Last(days) in days;
      } else if x in RecoveredByDay(Init(days), exposures, rows, window, reconciledAt) {
        var d :| d in Init(days) && x in PassOver(LakeCandidates(OnDay(rows, d)), exposures, window, reconciledAt);
        assert d in days;
      }
    }
  }

  /** Bucketed equals single pass: concatenating the pruned, bucket-by-bucket passes over
      the candidate days recovers exactly the rows of one in-memory pass over every
      candidate and every exposure. */
  lemma BucketedEqualsSinglePass(exposures: seq<Exposure>, rows: seq<Attributed>, window: Time, reconciledAt: Time,
                                 x: Attributed)
    requires VersionsShareEventTime(rows)
    ensures x in RecoveredByDay(CandidateDays(rows), exposures, rows, window, reconciledAt) <==>
            x in PassOver(LakeCandidates(rows), exposures, window, reconciledAt)
  {
    hide LakeCandidates, PassOver, RecoverRow, OnDay;
    var days := CandidateDays(rows);
    RecoveredByDayIs(days, exposures, rows, window, reconciledAt, x);
    InPass(rows, exposures, window, reconciledAt, x);
    if d :| d in days && x in PassOver(LakeCandidates(OnDay(rows, d)), exposures, window, reconciledAt) {
      InPass(OnDay(rows, d), exposures, window, reconciledAt, x);
      var a :| a in LakeCandidates(OnDay(rows, d)) &&
        RecoverRow(a, AllByHousehold(exposures), window, reconciledAt) == Some(x);
      CandidatesOfDay(rows, d, a);
    }
    if x in PassOver(LakeCandidates(rows), exposures, window, reconciledAt) {
      var a :| a in LakeCandidates(rows) && RecoverRow(a, AllByHousehold(exposures), window, reconciledAt) == Some(x);
      CandidatesOfDay(rows, a.Day(), a);
      InPass(OnDay(rows, a.Day()), exposures, window, reconciledAt, x);
      assert a.Day() in days;
    }
  }

  lemma InPass(rows: seq<Attributed>, exposures: seq<Exposure>, window: Time, reconciledAt: Time, x: Attributed)
    ensures x in PassOver(LakeCandidates(rows), exposures, window, reconciledAt) <==>
            exists a :: a in LakeCandidates(rows) &&
              RecoverRow(a, AllByHousehold(exposures), window, reconciledAt) == Some(x)
  {
    hide LakeCandidates, Recovered, RecoverRow, AllByHousehold;
    CandidatesAre(rows);
    RecoveredRows(LakeCandidates(rows), AllByHousehold(exposures), window, reconciledAt, x);
  }

  // ---------- one day after another, landing as it goes ----------

  lemma {:induction false} OnDayAppend(x: seq<Attributed>, y: seq<Attributed>, day: int)
    ensures OnDay(x + y, day) == OnDay(x, day) + OnDay(y, day)
  {
    if y == [] {
      assert x + y == x;
    } else {
      OnDayAppend(x, Init(y), day);
      assert Init(x + y) == x + Init(y) && Last(x + y) == Last(y);
    }
  }

  /** What a day recovers happened on that day. */
  lemma {:induction false} RecoveredOnItsDay(days: seq<int>, exposures: seq<Exposure>, rows: seq<Attributed>,
      window: Time, reconciledAt: Time, x: Attributed)
    requires x in RecoveredByDay(days, exposures, rows, window, reconciledAt)
    ensures x.Day() in days
  {
    hide LakeCandidates, PassOver, RecoverRow, OnDay;
    RecoveredByDayIs(days, exposures, rows, window, reconciledAt, x);
    var d :| d in days && x in PassOver(LakeCandidates(OnDay(rows, d)), exposures, window, reconciledAt);
    InPass(OnDay(rows, d), exposures, window, reconciledAt, x);
    var a :| a in LakeCandidates(OnDay(rows, d)) &&
      RecoverRow(a, AllByHousehold(exposures), window, reconciledAt) == Some(x);
    RecoverRowMeans(a, AllByHousehold(exposures), window, reconciledAt);
    CandidatesAre(OnDay(rows, d));
    CurrentIs(OnDay(rows, d), a.Cid());
    OnDayIs(rows, d, a);
  }

  /** No row is recovered twice. */
  lemma {:induction false} RecoveredByDayOnce(days: seq<int>, exposures: seq<Exposure>, rows: seq<Attributed>,
      window: Time, reconciledAt: Time)
    requires Distinct(days)
    ensures Distinct(RecoveredByDay(days, exposures, rows, window, reconciledAt))
  {
    hide PassOver, OnDay, LakeCandidates;
    if days != [] {
      var before, day := Init(days), Last(days);
      var r := RecoveredByDay(before, exposures, rows, window, reconciledAt);
      var own := PassOver(LakeCandidates(OnDay(rows, day)), exposures, window, reconciledAt);
      RecoveredByDayOnce(before, exposures, rows, window, reconciledAt);
      PassOnce(LakeCandidates(OnDay(rows, day)), exposures, window, reconciledAt);
      forall x | x in own ensures x.Day() == day { RecoveredOnDay(day, exposures, rows, window, reconciledAt, x); }
      forall x | x in r ensures x.Day() in before {
        RecoveredOnItsDay(before, exposures, rows, window, reconciledAt, x);
      }
      assert day !in before;
      AppendDistinct(r, own);
    }
  }

  lemma PassOnce(candidates: seq<Attributed>, exposures: seq<Exposure>, window: Time, reconciledAt: Time)
    ensures Distinct(PassOver(candidates, exposures, window, reconciledAt))
  {
    hide Expand, Recovered, AllByHousehold, FirstSeen;
    var expanded := Expand(candidates);
    var r := Recovered(FirstSeen(expanded), expanded, AllByHousehold(exposures), window, reconciledAt);
    RecoveredOnce(FirstSeen(expanded), expanded, AllByHousehold(exposures), window, reconciledAt);
    assert CidsDiffer(r);
  }

  lemma RecoveredOnDay(day: int, exposures: seq<Exposure>, rows: seq<Attributed>, window: Time, reconciledAt: Time,
                       x: Attributed)
    requires x in PassOver(LakeCandidates(OnDay(rows, day)), exposures, window, reconciledAt)
    ensures x.Day() == day
  {
    hide PassOver, OnDay, LakeCandidates;
    assert Init([day]) == [] && Last([day]) == day;
    assert RecoveredByDay([], exposures, rows, window, reconciledAt) == [];
    RecoveredOnItsDay([day], exposures, rows, window, reconciledAt, x);
  }

  /** Landing the corrections of other days does not touch a day's partition. */
  lemma LandedElsewhere(days: seq<int>, day: int, exposures: seq<Exposure>, rows: seq<Attributed>, window: Time,
                        reconciledAt: Time)
    requires day !in days
    ensures OnDay(rows + RecoveredByDay(days, exposures, rows, window, reconciledAt), day) == OnDay(rows, day)
  {
    hide OnDay, RecoveredByDay;
    var landed := RecoveredByDay(days, exposures, rows, window, reconciledAt);
    OnDayAppend(rows, landed, day);
    forall x | x in landed ensures x.Day() != day { RecoveredOnItsDay(days, exposures, rows, window, reconciledAt, x); }
    forall x ensures x !in OnDay(landed, day) { OnDayIs(landed, day, x); }
    FirstIn(OnDay(landed, day));
  }
}
