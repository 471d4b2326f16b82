/** The reconciliation matcher (reconcile/reconcile.py:90-173): explode the deferred rows
    over their candidate households, score each household with the same leaf over the
    long window, and pick the most recent exposure across households. */
module Reconcile {
  import opened Rows
  import opened Orders
  import opened Leaf
  import opened Collapse
  import opened Engine
  import opened Lateness
  import opened Dataflow
  import opened Parity
  import opened Resolve

  // ---------- the cross-household tiebreak ----------

  /** A credited candidate carries its exposure and its time. */
  predicate Timed(c: Candidate) {
    c.row.attributed ==> c.lastTouchTime.Some? && c.row.exposureId.Some?
  }

  /** Order by last touch, then exposure id, then household id. */
  predicate PickLe(a: Candidate, b: Candidate)
    requires a.row.attributed && b.row.attributed && Timed(a) && Timed(b)
  {
    var s, t := Touch(a.lastTouchTime.value, a.row.exposureId.value),
      Touch(b.lastTouchTime.value, b.row.exposureId.value);
    TouchLe(s, t) && (s == t ==> a.row.res.householdId <= b.row.res.householdId)
  }

  /** The first maximum among the attributed candidates. */
  function PickHousehold(candidates: seq<Candidate>): (r: Option<Candidate>)
    requires forall c :: c in candidates ==> Timed(c)
    ensures r.Some? ==> r.value in candidates && r.value.row.attributed
  {
    if candidates == [] then None
    else
      var prev, c := PickHousehold(Init(candidates)), Last(candidates);
      if !c.row.attributed then prev
      else if prev.None? || !PickLe(c, prev.value) then Some(c)
      else prev
  }

  lemma {:induction false} PickIsMax(candidates: seq<Candidate>)
    requires forall c :: c in candidates ==> Timed(c)
    ensures PickHousehold(candidates).None? <==> forall c :: c in candidates ==> !c.row.attributed
    ensures PickHousehold(candidates).Some? ==>
              forall c :: c in candidates && c.row.attributed ==> PickLe(c, PickHousehold(candidates).value)
  {
    if candidates != [] {
      PickIsMax(Init(candidates));
      assert candidates == Init(candidates) + [Last(candidates)];
    }
  }

  lemma {:induction false} PickedAt(candidates: seq<Candidate>) returns (k: nat)
    requires forall c :: c in candidates ==> Timed(c)
    requires PickHousehold(candidates).Some?
    ensures k < |candidates| && candidates[k].row.attributed && PickHousehold(candidates) == Some(candidates[k])
    ensures forall j :: 0 <= j < k && candidates[j].row.attributed ==> !PickLe(candidates[k], candidates[j])
  {
    assert forall c :: c in Init(candidates) ==> c in candidates;
    var prev := PickHousehold(Init(candidates));
    if PickHousehold(candidates) == prev {
      k := PickedAt(Init(candidates));
      assert forall j :: 0 <= j < k ==> candidates[j] == Init(candidates)[j];
    } else {
      k := |candidates| - 1;
      PickIsMax(Init(candidates));
      forall j | 0 <= j < k && candidates[j].row.attributed ensures !PickLe(candidates[k], candidates[j]) {
        assert candidates[j] == Init(candidates)[j] && Init(candidates)[j] in Init(candidates);
        assert PickLe(candidates[j], prev.value) && !PickLe(candidates[k], prev.value);
      }
    }
  }

  /** The pick, on the fields of the candidates: the first of those with the latest touch, then
      the greatest exposure id, then the greatest household id. */
  lemma PickMeaning(candidates: seq<Candidate>)
    requires forall j :: 0 <= j < |candidates| ==> Timed(candidates[j])
    ensures PickHousehold(candidates).None? <==> forall c :: c in candidates ==> !c.row.attributed
    ensures PickHousehold(candidates).Some? ==>
              exists k :: 0 <= k < |candidates| && candidates[k].row.attributed
                && PickHousehold(candidates) == Some(candidates[k])
                && forall j :: 0 <= j < |candidates| && candidates[j].row.attributed ==>
                     var (s, x, h) := (candidates[j].lastTouchTime.value, candidates[j].row.exposureId.value,
                                       candidates[j].row.res.householdId);
                     var (t, y, g) := (candidates[k].lastTouchTime.value, candidates[k].row.exposureId.value,
                                       candidates[k].row.res.householdId);
                     s < t || (s == t && (x < y || (x == y && (h < g || (h == g && k <= j)))))
  {
    assert forall c :: c in candidates ==> Timed(c);
    PickIsMax(candidates);
    if PickHousehold(candidates).Some? {
      var k := PickedAt(candidates);
      forall j | 0 <= j < |candidates| && candidates[j].row.attributed
        ensures PickLe(candidates[j], candidates[k]) && (j < k ==> !PickLe(candidates[k], candidates[j]))
      {
        assert candidates[j] in candidates;
      }
    }
  }

  // ---------- explode ----------

  /** A state miss passes through; a deferred row becomes one row per candidate household. */
  function ExpandRow(a: Attributed): seq<Resolved> {
    if a.res.candidateCount > 1 then
      seq(|a.candidateHouseholds|, i requires 0 <= i < |a.candidateHouseholds| =>
        a.res.(householdId := a.candidateHouseholds[i]))
    else [a.res]
  }

  function Expand(rows: seq<Attributed>): seq<Resolved> {
    if rows == [] then [] else Expand(Init(rows)) + ExpandRow(Last(rows))
  }

  method ExpandCandidates(candidates: seq<Attributed>) returns (out: seq<Resolved>)
    ensures out == Expand(candidates)
  {
    out := [];
    for i := 0 to |candidates|
      invariant out == Expand(candidates[..i])
    {
      assert Init(candidates[..i + 1]) == candidates[..i] && Last(candidates[..i + 1]) == candidates[i];
      out := out + ExpandRow(candidates[i]);
    }
    assert candidates[..|candidates|] == candidates;
  }

  /** Rows are expanded one by one, in order. */
  lemma {:induction false} ExpandAppends(x: seq<Attributed>, y: seq<Attributed>)
    ensures Expand(x + y) == Expand(x) + Expand(y)
    ensures |y| == 1 ==> Expand(y) == ExpandRow(y[0])
  {
    hide ExpandRow;
    if y == [] {
      assert x + y == x;
    } else {
      ExpandAppends(x, Init(y));
      assert Init(x + y) == x + Init(y) && Last(x + y) == Last(y);
    }
  }

  lemma {:induction false} ExpandIs(rows: seq<Attributed>, r: Resolved)
    ensures r in Expand(rows) <==> exists a :: a in rows && r in ExpandRow(a)
  {
    if rows != [] {
      ExpandIs(Init(rows), r);
      assert rows == Init(rows) + [Last(rows)];
      assert Last(rows) in rows;
    }
  }

  /** Explode undoes collapse: from the one deferred row of an ambiguous conversion, the
      rows that resolution fanned out come back, all of them and in the same order. */
  lemma ExplodeUndoesCollapse(exposures: seq<Exposure>, convs: seq<Conversion>, index: GraphIndex, c: Resolved,
                              lateness: Time)
    requires ExactResends(convs) && WellFormedIndex(index)
    requires c in OneRow(ResolveAll(convs, index)) && c.candidateCount > 1
    ensures ExpandRow(EngineCandidate(exposures, ResolveAll(convs, index), c, lateness).row) ==
        ResolveOne(c.conv, index)
  {
    hide Stream, ResolveAll, ProbedState, CandidateHouseholds, EngineCandidate, OneRow;
    var all, rows := ResolveAll(convs, index), ResolveOne(c.conv, index);
    InOneRow(all, c);
    ResolveAllIs(convs, index, c);
    CandidateSetIsFanOut(convs, index, c);
    var p := Position(exposures, all, c, lateness);
    var exploded := ExpandRow(EngineCandidate(exposures, all, c, lateness).row);
    var hhs := HouseholdsOf(rows);
    forall i | 0 <= i < |rows| ensures c.(householdId := hhs[i]) == rows[i] {
      var k :| 0 <= k < |rows| && rows[k] == c;
    }
    assert exploded == rows;
  }

  // ---------- one conversion ----------

  function GroupOf(rows: seq<Resolved>, cid: Id): seq<Resolved> {
    if rows == [] then []
    else GroupOf(Init(rows), cid) + (if Last(rows).Cid() == cid then [Last(rows)] else [])
  }

  lemma {:induction false} GroupOfIs(rows: seq<Resolved>, cid: Id, r: Resolved)
    ensures r in GroupOf(rows, cid) <==> r in rows && r.Cid() == cid
  {
    if rows != [] {
      GroupOfIs(Init(rows), cid, r);
      assert rows == Init(rows) + [Last(rows)];
    }
  }

  function ScoreGroup(rows: seq<Resolved>, exposuresBy: map<Id, seq<Exposure>>, window: Time,
      hhs: seq<Id>): (s: seq<Candidate>)
    ensures |s| == |rows|
    ensures forall i :: 0 <= i < |rows| ==>
              s[i] == LastTouch(Bucket(exposuresBy, rows[i].householdId), rows[i], window, hhs)
    ensures forall c :: c in s ==> Timed(c)
  {
    seq(|rows|, i requires 0 <= i < |rows| => LastTouch(Bucket(exposuresBy, rows[i].householdId), rows[i], window, hhs))
  }

  /** The recovered row of one conversion, if some candidate household can be credited. */
  function RecoverGroup(rows: seq<Resolved>, exposuresBy: map<Id, seq<Exposure>>, window: Time, hhs: seq<Id>,
                        reconciledAt: Time): Option<Attributed>
  {
    match PickHousehold(ScoreGroup(rows, exposuresBy, window, hhs))
    case None => None
    case Some(winner) => Some(winner.row.(path := Reconciled, processedAt := reconciledAt))
  }

  /** The household-independent part of a group's rows agree. */
  ghost predicate SameConversion(rows: seq<Resolved>) {
    forall r, s :: r in rows && s in rows ==> r.conv == s.conv
  }

  function HouseholdSet(rows: seq<Resolved>): set<Id> { set r | r in rows :: r.householdId }

  /** `e` is the latest exposure, ties by id, over all of the households at once. */
  ghost predicate IsBest(exposures: seq<Exposure>, households: set<Id>, c: Resolved, window: Time, e: Exposure) {
    && e in exposures && e.householdId in households && Eligible(e, c, window)
    && forall f :: f in exposures && f.householdId in households && Eligible(f, c, window) ==>
         TouchLe(TouchOf(f), TouchOf(e))
  }

  /** `exposuresBy` holds, of each household of `rows`, what its rows can be credited with. */
  ghost predicate Covers(exposuresBy: map<Id, seq<Exposure>>, exposures: seq<Exposure>, rows: seq<Resolved>,
    window: Time) {
    forall r, e :: r in rows && Eligible(e, r, window) ==>
      (e in Bucket(exposuresBy, r.householdId) <==> e in exposures && e.householdId == r.householdId)
  }

  lemma ScoredIsBestOfHousehold(exposures: seq<Exposure>, exposuresBy: map<Id, seq<Exposure>>, rows: seq<Resolved>,
                                window: Time, hhs: seq<Id>, r: Resolved)
    requires r in rows && Covers(exposuresBy, exposures, rows, window)
    ensures var c := LastTouch(Bucket(exposuresBy, r.householdId), r, window, hhs);
      if c.row.attributed then
        exists e :: IsBest(exposures, {r.householdId}, r, window, e)
                    && TouchOf(e) == Touch(c.lastTouchTime.value, c.row.exposureId.value)
      else forall e :: e in exposures && e.householdId == r.householdId ==> !Eligible(e, r, window)
  {
    hide LastTouch;
    var bucket := Bucket(exposuresBy, r.householdId);
    CreditMeaning(bucket, r, window, hhs);
    var c := LastTouch(bucket, r, window, hhs);
    if c.row.attributed {
      var e :| e in bucket && Eligible(e, r, window) &&
        TouchOf(e) == Touch(c.lastTouchTime.value, c.row.exposureId.value);
      assert IsBest(exposures, {r.householdId}, r, window, e);
    }
  }

  /** The best of one household, if it is at least every other household's, is best of all. */
  lemma BestAcross(exposures: seq<Exposure>, exposuresBy: map<Id, seq<Exposure>>, rows: seq<Resolved>, window: Time,
                   hhs: seq<Id>, r: Resolved, w: Candidate) returns (e: Exposure)
    requires SameConversion(rows) && Covers(exposuresBy, exposures, rows, window) && r in rows
    requires w == LastTouch(Bucket(exposuresBy, r.householdId), r, window, hhs) && w.row.attributed && Timed(w)
    requires forall c :: c in ScoreGroup(rows, exposuresBy, window, hhs) && c.row.attributed ==> PickLe(c, w)
    ensures IsBest(exposures, HouseholdSet(rows), r, window, e)
    ensures w.row.exposureId == Some(e.exposureId) && r.householdId == e.householdId
  {
    hide LastTouch, Covers;
    var scored := ScoreGroup(rows, exposuresBy, window, hhs);
    ScoredIsBestOfHousehold(exposures, exposuresBy, rows, window, hhs, r);
    e :| IsBest(exposures, {r.householdId}, r, window, e)
         && TouchOf(e) == Touch(w.lastTouchTime.value, w.row.exposureId.value);
    forall f | f in exposures && f.householdId in HouseholdSet(rows) && Eligible(f, r, window)
      ensures TouchLe(TouchOf(f), TouchOf(e))
    {
      var s :| s in rows && s.householdId == f.householdId;
      var j :| 0 <= j < |rows| && rows[j] == s;
      ScoredIsBestOfHousehold(exposures, exposuresBy, rows, window, hhs, s);
      assert scored[j] in scored && PickLe(scored[j], w);
    }
  }

  lemma NothingAcross(exposures: seq<Exposure>, exposuresBy: map<Id, seq<Exposure>>, rows: seq<Resolved>, window: Time,
                      hhs: seq<Id>, c: Resolved)
    requires c in rows && SameConversion(rows) && Covers(exposuresBy, exposures, rows, window)
    requires forall s :: s in ScoreGroup(rows, exposuresBy, window, hhs) ==> !s.row.attributed
    ensures forall e :: e in exposures && e.householdId in HouseholdSet(rows) ==> !Eligible(e, c, window)
  {
    hide LastTouch, Covers;
    var scored := ScoreGroup(rows, exposuresBy, window, hhs);
    forall e | e in exposures && e.householdId in HouseholdSet(rows) ensures !Eligible(e, c, window) {
      var r :| r in rows && r.householdId == e.householdId;
      var i :| 0 <= i < |rows| && rows[i] == r;
      assert scored[i] in scored;
      ScoredIsBestOfHousehold(exposures, exposuresBy, rows, window, hhs, r);
    }
  }

  /** Two levels equal one: the per-household leaf followed by the pick credits a maximum
      over the union of all candidate households, or nothing if nothing is eligible. */
  lemma TwoLevelsAreFlat(exposures: seq<Exposure>, exposuresBy: map<Id, seq<Exposure>>, rows: seq<Resolved>,
                         window: Time, hhs: seq<Id>, reconciledAt: Time, c: Resolved)
    requires c in rows && SameConversion(rows) && Covers(exposuresBy, exposures, rows, window)
    ensures var got := RecoverGroup(rows, exposuresBy, window, hhs, reconciledAt);
      if got.Some? then
        exists e :: IsBest(exposures, HouseholdSet(rows), c, window, e)
                    && got.value.exposureId == Some(e.exposureId) && got.value.res.householdId == e.householdId
      else forall e :: e in exposures && e.householdId in HouseholdSet(rows) ==> !Eligible(e, c, window)
  {
    hide LastTouch, Covers, HouseholdSet, SameConversion;
    var scored := ScoreGroup(rows, exposuresBy, window, hhs);
    PickIsMax(scored);
    match PickHousehold(scored)
    case None => NothingAcross(exposures, exposuresBy, rows, window, hhs, c);
    case Some(w) =>
      var i :| 0 <= i < |scored| && scored[i] == w;
      var r := rows[i];
      assert r in rows;
      LastTouchKeepsConversion(Bucket(exposuresBy, r.householdId), r, window, hhs);
      var e := BestAcross(exposures, exposuresBy, rows, window, hhs, r, w);
      SameBest(exposures, rows, c, r, window, e);
  }

  lemma SameBest(exposures: seq<Exposure>, rows: seq<Resolved>, c: Resolved, r: Resolved, window: Time, e: Exposure)
    requires c in rows && r in rows && SameConversion(rows) && IsBest(exposures, HouseholdSet(rows), r, window, e)
    ensures IsBest(exposures, HouseholdSet(rows), c, window, e)
  {
  }

  lemma LastTouchKeepsConversion(exposures: seq<Exposure>, r: Resolved, window: Time, hhs: seq<Id>)
    ensures LastTouch(exposures, r, window, hhs).row.res == r
  {
  }

  /** With unique exposure ids there is one best exposure. */
  lemma BestIsUnique(exposures: seq<Exposure>, households: set<Id>, c: Resolved, window: Time, e: Exposure, f: Exposure)
    requires UniqueExposures(exposures)
    requires IsBest(exposures, households, c, window, e) && IsBest(exposures, households, c, window, f)
    ensures e == f
  {
    assert TouchLe(TouchOf(e), TouchOf(f)) && TouchLe(TouchOf(f), TouchOf(e));
  }

  /** Only what the leaf reads of the exposures matters. */
  lemma RecoverGroupSameTouches(rows: seq<Resolved>, a: map<Id, seq<Exposure>>, b: map<Id, seq<Exposure>>, window: Time,
                                hhs: seq<Id>, reconciledAt: Time)
    requires forall r :: r in rows ==>
               EligibleTouches(Bucket(a, r.householdId), r, window) ==
                 EligibleTouches(Bucket(b, r.householdId), r, window)
    ensures RecoverGroup(rows, a, window, hhs, reconciledAt) == RecoverGroup(rows, b, window, hhs, reconciledAt)
  {
    hide EligibleTouches, Credit;
    var s, t := ScoreGroup(rows, a, window, hhs), ScoreGroup(rows, b, window, hhs);
    forall i | 0 <= i < |rows| ensures s[i] == t[i] { assert rows[i] in rows; }
    assert s == t;
  }

  /** The recovered row does not depend on the order, or the number, of the group's rows. */
  lemma RecoveredIgnoresOrder(exposures: seq<Exposure>, exposuresBy: map<Id, seq<Exposure>>, a: seq<Resolved>,
      b: seq<Resolved>, window: Time, hhs: seq<Id>, reconciledAt: Time)
    requires SameSet(a, b) && SameConversion(a) && OnePerHousehold(a) && UniqueExposures(exposures)
    requires Covers(exposuresBy, exposures, a, window)
    ensures RecoverGroup(a, exposuresBy, window, hhs, reconciledAt) ==
        RecoverGroup(b, exposuresBy, window, hhs, reconciledAt)
  {
    hide LastTouch, RecoverGroup;
    var x, y := RecoverGroup(a, exposuresBy, window, hhs, reconciledAt),
      RecoverGroup(b, exposuresBy, window, hhs, reconciledAt);
    assert HouseholdSet(a) == HouseholdSet(b);
    SameSetEmpty(a, b);
    if a != [] && b != [] {
      assert a[0] in a && a[0] in b;
      TwoLevelsAreFlat(exposures, exposuresBy, a, window, hhs, reconciledAt, a[0]);
      TwoLevelsAreFlat(exposures, exposuresBy, b, window, hhs, reconciledAt, a[0]);
      if x.Some? && y.Some? {
        var e :| IsBest(exposures, HouseholdSet(a), a[0], window, e) && x.value.res.householdId == e.householdId;
        var f :| IsBest(exposures, HouseholdSet(b), a[0], window, f) && y.value.res.householdId == f.householdId;
        BestIsUnique(exposures, HouseholdSet(a), a[0], window, e, f);
        RecoveredFrom(a, exposuresBy, window, hhs, reconciledAt);
        RecoveredFrom(b, exposuresBy, window, hhs, reconciledAt);
        var r :| r in a && r == x.value.res;
        var s :| s in b && s == y.value.res;
        assert ResolvedKey(r) == ResolvedKey(s);
      }
    }
  }

  lemma SameSetEmpty<T(!new)>(a: seq<T>, b: seq<T>)
    requires SameSet(a, b)
    ensures a == [] <==> b == []
  {
    if a != [] { assert a[0] in b; }
    if b != [] { assert b[0] in a; }
  }

  /** A recovered row is the leaf's row for one of the group's rows, re-stamped. */
  lemma RecoveredFrom(rows: seq<Resolved>, exposuresBy: map<Id, seq<Exposure>>, window: Time, hhs: seq<Id>,
                      reconciledAt: Time)
    ensures var got := RecoverGroup(rows, exposuresBy, window, hhs, reconciledAt);
      got.Some? ==>
        && got.value.res in rows && got.value.attributed && got.value.reason == None
        && got.value.path == Reconciled && got.value.processedAt == reconciledAt && got.value.candidateHouseholds == hhs
        && got.value == LastTouch(Bucket(exposuresBy, got.value.res.householdId), got.value.res, window, hhs)
                          .row.(path := Reconciled, processedAt := reconciledAt)
  {
    var scored := ScoreGroup(rows, exposuresBy, window, hhs);
    var pick := PickHousehold(scored);
    if pick.Some? {
      var i :| 0 <= i < |scored| && scored[i] == pick.value;
      assert rows[i] in rows;
    }
  }

  // ---------- the matcher over all conversions ----------

  function CandidatesFor(rows: seq<Resolved>, cid: Id): seq<Id> {
    if cid in CandidateHouseholds(rows) then CandidateHouseholds(rows)[cid] else []
  }

  /** The group was never exploded, or one of its rows breaks the candidate-set invariant. */
  predicate GroupRaises(rows: seq<Resolved>, hhs: seq<Id>) {
    || (|rows| == 1 && rows[0].candidateCount > 1)
    || exists r :: r in rows && !CandidateSetMatchesCount(Unattributed(r, hhs).row)
  }

  /** The same said with sets. */
  lemma GroupRaisesIff(rows: seq<Resolved>, hhs: seq<Id>)
    ensures GroupRaises(rows, hhs) <==>
      || (|rows| == 1 && rows[0].candidateCount > 1)
      || (exists r :: r in rows && r.candidateCount == 1 && hhs != [])
      || (exists r :: r in rows && r.candidateCount > 1
                      && !exists s: set<Id> :: |s| == r.candidateCount && r.householdId in s && hhs == SortedIds(s))
  {
    hide CandidateSetMatchesCount;
    forall r | r in rows
      ensures CandidateSetMatchesCount(Unattributed(r, hhs).row) <==>
              if r.candidateCount == 1 then hhs == []
              else exists s: set<Id> :: |s| == r.candidateCount && r.householdId in s && hhs == SortedIds(s)
    {
      ValidMeaning(Unattributed(r, hhs).row);
    }
  }

  ghost predicate ReconcileRaises(candidates: seq<Resolved>) {
    exists cid :: cid in FirstSeen(candidates) && GroupRaises(GroupOf(candidates, cid), CandidatesFor(candidates, cid))
  }

  function RecoverConversion(candidates: seq<Resolved>, cid: Id, exposuresBy: map<Id, seq<Exposure>>, window: Time,
                             reconciledAt: Time): Option<Attributed>
  {
    RecoverGroup(GroupOf(candidates, cid), exposuresBy, window, CandidatesFor(candidates, cid), reconciledAt)
  }

  /** The recovered rows of `cids`, in order; a conversion that still misses gives none. */
  function Recovered(cids: seq<Id>, candidates: seq<Resolved>, exposuresBy: map<Id, seq<Exposure>>, window: Time,
                     reconciledAt: Time): seq<Attributed>
  {
    if cids == [] then []
    else
      Recovered(Init(cids), candidates, exposuresBy, window, reconciledAt) +
      (match RecoverConversion(candidates, Last(cids), exposuresBy, window, reconciledAt)
       case None => []
       case Some(a) => [a])
  }

  lemma {:induction false} RecoveredIs(cids: seq<Id>, candidates: seq<Resolved>, exposuresBy: map<Id, seq<Exposure>>,
                                       window: Time, reconciledAt: Time, a: Attributed)
    ensures a in Recovered(cids, candidates, exposuresBy, window, reconciledAt) <==>
            exists cid :: cid in cids &&
              RecoverConversion(candidates, cid, exposuresBy, window, reconciledAt) == Some(a)
  {
    hide RecoverConversion;
    if cids != [] {
      RecoveredIs(Init(cids), candidates, exposuresBy, window, reconciledAt, a);
      assert cids == Init(cids) + [Last(cids)];
    }
  }

  /** No two of these rows are of one conversion. */
  predicate CidsDiffer(rows: seq<Attributed>) {
    forall p, q :: 0 <= p < q < |rows| ==> rows[p].Cid() != rows[q].Cid()
  }

  /** At most one recovered row per conversion. */
  lemma {:induction false} RecoveredOnce(cids: seq<Id>, candidates: seq<Resolved>, exposuresBy: map<Id, seq<Exposure>>,
                                         window: Time, reconciledAt: Time)
    requires forall p, q :: 0 <= p < q < |cids| ==> cids[p] != cids[q]
    ensures forall a :: a in Recovered(cids, candidates, exposuresBy, window, reconciledAt) ==> a.Cid() in cids
    ensures CidsDiffer(Recovered(cids, candidates, exposuresBy, window, reconciledAt))
  {
    hide RecoverGroup, GroupOf, CandidatesFor;
    if cids != [] {
      RecoveredOnce(Init(cids), candidates, exposuresBy, window, reconciledAt);
      assert cids == Init(cids) + [Last(cids)];
      var prev, group := Recovered(Init(cids), candidates, exposuresBy, window, reconciledAt),
        GroupOf(candidates, Last(cids));
      RecoveredFrom(group, exposuresBy, window, CandidatesFor(candidates, Last(cids)), reconciledAt);
      forall r | r in group ensures r.Cid() == Last(cids) { GroupOfIs(candidates, Last(cids), r); }
      forall p | 0 <= p < |prev| ensures prev[p].Cid() != Last(cids) { assert prev[p] in prev; }
    }
  }

  /** Score every row of a group; building a row runs the validator. */
  method ScoreRows(rows: seq<Resolved>, exposuresBy: map<Id, seq<Exposure>>, window: Time, hhs: seq<Id>)
    returns (r: Result<seq<Candidate>>)
    ensures r.ValueError? <==> exists s :: s in rows && !CandidateSetMatchesCount(Unattributed(s, hhs).row)
    ensures r.Ok? ==> r.value == ScoreGroup(rows, exposuresBy, window, hhs)
  {
    hide LastTouch, CandidateSetMatchesCount;
    var scored: seq<Candidate> := [];
    for i := 0 to |rows|
      invariant |scored| == i
      invariant forall j :: 0 <= j < i ==>
                  scored[j] == LastTouch(Bucket(exposuresBy, rows[j].householdId), rows[j], window, hhs)
      invariant forall j :: 0 <= j < i ==> CandidateSetMatchesCount(Unattributed(rows[j], hhs).row)
    {
      var c := LastTouch(Bucket(exposuresBy, rows[i].householdId), rows[i], window, hhs);
      SameValidity(Bucket(exposuresBy, rows[i].householdId), rows[i], window, hhs);
      if !CandidateSetMatchesCount(c.row) {
        assert rows[i] in rows;
        return ValueError;
      }
      scored := scored + [c];
    }
    assert scored == ScoreGroup(rows, exposuresBy, window, hhs);
    r := Ok(scored);
  }

  lemma SameValidity(exposures: seq<Exposure>, r: Resolved, window: Time, hhs: seq<Id>)
    ensures CandidateSetMatchesCount(LastTouch(exposures, r, window, hhs).row)
       <==> CandidateSetMatchesCount(Unattributed(r, hhs).row)
  {
  }

  lemma OneMoreRow(rows: seq<Resolved>, r: Resolved, cid: Id)
    ensures GroupOf(rows + [r], cid) == GroupOf(rows, cid) + (if r.Cid() == cid then [r] else [])
  {
    assert Init(rows + [r]) == rows && Last(rows + [r]) == r;
  }

  lemma NoRowsNoGroups()
    ensures FirstSeen([]) == [] && forall c :: GroupOf([], c) == []
  {
  }

  lemma OneMoreSeen(rows: seq<Resolved>, r: Resolved)
    ensures FirstSeen(rows + [r]) == if r.Cid() in FirstSeen(rows) then FirstSeen(rows) else FirstSeen(rows) + [r.Cid()]
  {
    assert Init(rows + [r]) == rows && Last(rows + [r]) == r;
  }

  /** Group the expanded rows by conversion id; `cids` remembers first-seen order. */
  method GroupByConversion(candidates: seq<Resolved>) returns (cids: seq<Id>, groups: map<Id, seq<Resolved>>)
    ensures cids == FirstSeen(candidates)
    ensures forall c :: c in cids <==> c in groups
    ensures forall c :: Bucket(groups, c) == GroupOf(candidates, c)
  {
    hide FirstSeen, GroupOf;
    cids, groups := [], map[];
    NoRowsNoGroups();
    for i := 0 to |candidates|
      invariant cids == FirstSeen(candidates[..i])
      invariant forall c :: c in cids <==> c in groups
      invariant forall c :: Bucket(groups, c) == GroupOf(candidates[..i], c)
    {
      var r := candidates[i];
      assert candidates[..i + 1] == candidates[..i] + [r];
      OneMoreSeen(candidates[..i], r);
      forall c { OneMoreRow(candidates[..i], r, c); }
      if r.Cid() !in groups { cids := cids + [r.Cid()]; }
      groups := groups[r.Cid() := Bucket(groups, r.Cid()) + [r]];
    }
    assert candidates[..|candidates|] == candidates;
  }

  /** One conversion's group: refuse an unexploded one, score every household, pick. */
  method RecoverRows(rows: seq<Resolved>, exposuresBy: map<Id, seq<Exposure>>, window: Time, hhs: seq<Id>,
                     reconciledAt: Time)
    returns (r: Result<Option<Attributed>>)
    ensures r.ValueError? <==> GroupRaises(rows, hhs)
    ensures r.Ok? ==> r.value == RecoverGroup(rows, exposuresBy, window, hhs, reconciledAt)
  {
    hide ScoreGroup, PickHousehold, CandidateSetMatchesCount;
    if |rows| == 1 && rows[0].candidateCount > 1 {
      return ValueError;
    }
    var scored := ScoreRows(rows, exposuresBy, window, hhs);
    if scored.ValueError? {
      return ValueError;
    }
    var winner := PickHousehold(scored.value);
    r := Ok(if winner.None? then None else Some(winner.value.row.(path := Reconciled, processedAt := reconciledAt)));
  }

  lemma OneMoreRecovered(cids: seq<Id>, cid: Id, candidates: seq<Resolved>, exposuresBy: map<Id, seq<Exposure>>,
                         window: Time, reconciledAt: Time)
    ensures Recovered(cids + [cid], candidates, exposuresBy, window, reconciledAt)
         == Recovered(cids, candidates, exposuresBy, window, reconciledAt) +
            (match RecoverConversion(candidates, cid, exposuresBy, window, reconciledAt)
             case None => []
             case Some(a) => [a])
  {
    hide RecoverConversion;
    assert Init(cids + [cid]) == cids;
  }

  lemma NothingRecovered(candidates: seq<Resolved>, exposuresBy: map<Id, seq<Exposure>>, window: Time,
      reconciledAt: Time)
    ensures Recovered([], candidates, exposuresBy, window, reconciledAt) == []
  {
  }

  /** The pure matcher. */
  method Match(candidates: seq<Resolved>, exposuresBy: map<Id, seq<Exposure>>, window: Time, reconciledAt: Time)
    returns (r: Result<seq<Attributed>>)
    ensures r.ValueError? <==> ReconcileRaises(candidates)
    ensures r.Ok? ==> r.value == Recovered(FirstSeen(candidates), candidates, exposuresBy, window, reconciledAt)
  {
    hide FirstSeen, GroupOf, CandidateHouseholds, RecoverGroup, GroupRaises, Recovered;
    NothingRecovered(candidates, exposuresBy, window, reconciledAt);
    var cids, groups := GroupByConversion(candidates);
    var byCid := CandidateHouseholdsByConversion(candidates);
    var recovered: seq<Attributed> := [];
    for i := 0 to |cids|
      invariant recovered == Recovered(cids[..i], candidates, exposuresBy, window, reconciledAt)
      invariant forall j :: 0 <= j < i ==>
          !GroupRaises(GroupOf(candidates, cids[j]), CandidatesFor(candidates, cids[j]))
    {
      var cid := cids[i];
      assert cid in cids;
      assert cids[..i + 1] == cids[..i] + [cid];
      assert Bucket(groups, cid) == GroupOf(candidates, cid);
      var hhs := if cid in byCid then byCid[cid] else [];
      var one := RecoverRows(groups[cid], exposuresBy, window, hhs, reconciledAt);
      if one.ValueError? {
        return ValueError;
      }
      OneMoreRecovered(cids[..i], cid, candidates, exposuresBy, window, reconciledAt);
      assert recovered + [] == recovered;
      if one.value.Some? {
        recovered := recovered + [one.value.value];
      }
    }
    assert cids[..|cids|] == cids;
    r := Ok(recovered);
  }
}
