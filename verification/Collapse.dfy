/** What happens to the two streams before the join (streaming/attribute.py):
    exact re-sends are dropped, a shared-IP fan-out is recorded as a candidate set and
    collapsed to one placeholder row per conversion. */
module Collapse {
  import opened Rows
  import opened Orders

  // ---------- dedup ----------

  /** No earlier row has the key of row `i`. */
  predicate FirstOfItsKey<M, K(==)>(rows: seq<M>, key: M -> K, i: nat)
    requires i < |rows|
  {
    forall j :: 0 <= j < i ==> key(rows[j]) != key(rows[i])
  }

  /** The rows of `rows[..n]` whose key no earlier row has. */
  function KeepFirst<M, K(==)>(rows: seq<M>, key: M -> K, n: nat): seq<M>
    requires n <= |rows|
  {
    if n == 0 then []
    else KeepFirst(rows, key, n - 1) + (if FirstOfItsKey(rows, key, n - 1) then [rows[n - 1]] else [])
  }

  method DedupById<M, K(==)>(rows: seq<M>, key: M -> K) returns (kept: seq<M>, suppressed: nat)
    ensures kept == KeepFirst(rows, key, |rows|)
    ensures suppressed + |kept| == |rows|
  {
    var seen: set<K> := {};
    kept, suppressed := [], 0;
    for i := 0 to |rows|
      invariant forall j :: 0 <= j < i ==> key(rows[j]) in seen
      invariant forall k :: k in seen ==> exists j :: 0 <= j < i && key(rows[j]) == k
      invariant kept == KeepFirst(rows, key, i)
      invariant suppressed + |kept| == i
    {
      var k := key(rows[i]);
      assert k !in seen ==> FirstOfItsKey(rows, key, i);
      if k in seen {
        var j :| 0 <= j < i && key(rows[j]) == k;
        assert !FirstOfItsKey(rows, key, i);
      }
      assert kept + [] == kept;
      if k in seen {
        suppressed := suppressed + 1;
      } else {
        seen := seen + {k};
        kept := kept + [rows[i]];
      }
    }
  }

  /** The first row of every key is kept and nothing else is. */
  lemma {:induction false} KeptExactly<M, K>(rows: seq<M>, key: M -> K, n: nat, x: M)
    requires n <= |rows|
    ensures x in KeepFirst(rows, key, n) <==> exists i :: 0 <= i < n && rows[i] == x && FirstOfItsKey(rows, key, i)
  {
    if n > 0 { KeptExactly(rows, key, n - 1, x); }
  }

  /** No key is lost. */
  lemma {:induction false} KeyIsKept<M, K>(rows: seq<M>, key: M -> K, i: nat)
    requires i < |rows|
    ensures exists x :: x in KeepFirst(rows, key, |rows|) && key(x) == key(rows[i])
  {
    if FirstOfItsKey(rows, key, i) {
      KeptExactly(rows, key, |rows|, rows[i]);
    } else {
      var j :| 0 <= j < i && key(rows[j]) == key(rows[i]);
      KeyIsKept(rows, key, j);
    }
  }

  ghost predicate KeysDiffer<M, K>(rows: seq<M>, key: M -> K) {
    forall i, j :: 0 <= i < j < |rows| ==> key(rows[i]) != key(rows[j])
  }

  /** No key is kept twice. */
  lemma {:induction false} KeptKeysDiffer<M, K>(rows: seq<M>, key: M -> K, n: nat)
    requires n <= |rows|
    ensures KeysDiffer(KeepFirst(rows, key, n), key)
  {
    if n > 0 {
      KeptKeysDiffer(rows, key, n - 1);
      var prev, kept := KeepFirst(rows, key, n - 1), KeepFirst(rows, key, n);
      forall i, j | 0 <= i < j < |kept| ensures key(kept[i]) != key(kept[j]) {
        assert kept[i] == prev[i] && prev[i] in prev;
        if j == |prev| {
          KeptExactly(rows, key, n - 1, prev[i]);
          var at :| 0 <= at < n - 1 && rows[at] == prev[i];
          assert FirstOfItsKey(rows, key, n - 1) && kept[j] == rows[n - 1];
          assert key(rows[at]) != key(rows[n - 1]);
        } else {
          assert kept[j] == prev[j];
        }
      }
    }
  }

  /** What is kept stays in order. */
  lemma {:induction false} KeptInOrder<M, K>(rows: seq<M>, key: M -> K, n: nat, p: nat, q: nat)
    requires n <= |rows| && p < q < |KeepFirst(rows, key, n)|
    ensures exists i, j :: 0 <= i < j < n && rows[i] == KeepFirst(rows, key, n)[p]
                           && rows[j] == KeepFirst(rows, key, n)[q]
  {
    var prev := KeepFirst(rows, key, n - 1);
    if q < |prev| {
      KeptInOrder(rows, key, n - 1, p, q);
    } else {
      assert prev[p] in prev;
      KeptExactly(rows, key, n - 1, prev[p]);
    }
  }

  /** When equal keys carry equal rows, dedup loses no row. */
  lemma KeepFirstLosesNothing<M, K>(rows: seq<M>, key: M -> K)
    requires forall x, y :: x in rows && y in rows && key(x) == key(y) ==> x == y
    ensures forall x :: x in KeepFirst(rows, key, |rows|) <==> x in rows
  {
    var kept := KeepFirst(rows, key, |rows|);
    forall x ensures x in kept <==> x in rows {
      KeptExactly(rows, key, |rows|, x);
      if x in rows {
        var i :| 0 <= i < |rows| && rows[i] == x;
        KeyIsKept(rows, key, i);
        var y :| y in kept && key(y) == key(rows[i]);
        KeptExactly(rows, key, |rows|, y);
        assert y in rows;
      }
    }
  }

  function ExposureKey(e: Exposure): Id { e.exposureId }
  function ResolvedKey(r: Resolved): (Id, Id) { (r.Cid(), r.householdId) }

  function DedupedExposures(exposures: seq<Exposure>): seq<Exposure> {
    KeepFirst(exposures, ExposureKey, |exposures|)
  }

  function DedupedResolved(resolved: seq<Resolved>): seq<Resolved> {
    KeepFirst(resolved, ResolvedKey, |resolved|)
  }

  /** An exposure is known by its id, a resolved conversion by its id and its household: the
      first row of each is kept. */
  lemma DedupMeaning(exposures: seq<Exposure>, resolved: seq<Resolved>, e: Exposure, r: Resolved)
    ensures e in DedupedExposures(exposures) <==>
            exists i :: 0 <= i < |exposures| && exposures[i] == e
                        && forall j :: 0 <= j < i ==> exposures[j].exposureId != e.exposureId
    ensures r in DedupedResolved(resolved) <==>
            exists i :: 0 <= i < |resolved| && resolved[i] == r
                        && forall j :: 0 <= j < i ==>
                             !(resolved[j].conv.conversionId == r.conv.conversionId
                               && resolved[j].householdId == r.householdId)
  {
    KeptExactly(exposures, ExposureKey, |exposures|, e);
    KeptExactly(resolved, ResolvedKey, |resolved|, r);
    if i :| 0 <= i < |exposures| && exposures[i] == e
            && forall j :: 0 <= j < i ==> exposures[j].exposureId != e.exposureId {
      assert FirstOfItsKey(exposures, ExposureKey, i);
    }
    if i :| 0 <= i < |resolved| && resolved[i] == r
            && forall j :: 0 <= j < i ==> !(resolved[j].conv.conversionId == r.conv.conversionId
                                            && resolved[j].householdId == r.householdId) {
      assert FirstOfItsKey(resolved, ResolvedKey, i);
    }
  }

  function KeysSeen<M, K(==)>(rows: seq<M>, key: M -> K, n: nat): set<K>
    requires n <= |rows|
  {
    set j | 0 <= j < n :: key(rows[j])
  }

  /** As many rows are kept as there are keys. */
  lemma {:induction false} KeptCount<M, K>(rows: seq<M>, key: M -> K, n: nat)
    requires n <= |rows|
    ensures |KeepFirst(rows, key, n)| == |KeysSeen(rows, key, n)|
  {
    if n == 0 {
      assert KeysSeen(rows, key, n) == {};
    } else {
      KeptCount(rows, key, n - 1);
      assert KeysSeen(rows, key, n) == KeysSeen(rows, key, n - 1) + {key(rows[n - 1])};
      assert FirstOfItsKey(rows, key, n - 1) <==> key(rows[n - 1]) !in KeysSeen(rows, key, n - 1);
      if !FirstOfItsKey(rows, key, n - 1) { assert KeysSeen(rows, key, n) == KeysSeen(rows, key, n - 1); }
    }
  }

  lemma DedupCounts(exposures: seq<Exposure>, resolved: seq<Resolved>)
    ensures |DedupedExposures(exposures)| == |set e | e in exposures :: e.exposureId|
    ensures |DedupedResolved(resolved)| == |set r | r in resolved :: (r.conv.conversionId, r.householdId)|
  {
    var x, y := KeysSeen(exposures, ExposureKey, |exposures|), KeysSeen(resolved, ResolvedKey, |resolved|);
    KeptCount(exposures, ExposureKey, |exposures|);
    KeptCount(resolved, ResolvedKey, |resolved|);
    forall e | e in exposures ensures e.exposureId in x {
      var i :| 0 <= i < |exposures| && exposures[i] == e;
      assert ExposureKey(exposures[i]) in x;
    }
    forall r | r in resolved ensures (r.conv.conversionId, r.householdId) in y {
      var i :| 0 <= i < |resolved| && resolved[i] == r;
      assert ResolvedKey(resolved[i]) in y;
    }
    assert x == set e | e in exposures :: e.exposureId;
    assert y == set r | r in resolved :: (r.conv.conversionId, r.householdId);
  }

  method DedupStreams(exposures: seq<Exposure>, resolved: seq<Resolved>)
    returns (exp: seq<Exposure>, res: seq<Resolved>, suppressed: nat)
    ensures exp == DedupedExposures(exposures)
    ensures res == DedupedResolved(resolved)
    ensures suppressed + |exp| + |res| == |exposures| + |resolved|
  {
    var expN, resN;
    exp, expN := DedupById(exposures, ExposureKey);
    res, resN := DedupById(resolved, ResolvedKey);
    suppressed := expN + resN;
  }

  // ---------- one row per conversion ----------

  function Init<T>(s: seq<T>): seq<T> requires s != [] { s[..|s| - 1] }
  function Last<T>(s: seq<T>): T requires s != [] { s[|s| - 1] }

  /** The conversion ids in first-arrival order. */
  function FirstSeen(rows: seq<Resolved>): (ids: seq<Id>)
    ensures forall c :: c in ids <==> exists r :: r in rows && r.Cid() == c
    ensures forall i, j :: 0 <= i < j < |ids| ==> ids[i] != ids[j]
  {
    if rows == [] then []
    else
      var prev := FirstSeen(Init(rows));
      assert rows == Init(rows) + [Last(rows)];
      if Last(rows).Cid() in prev then prev else prev + [Last(rows).Cid()]
  }

  /** The row a conversion collapses to: its first row of lowest household. */
  function Representative(rows: seq<Resolved>, cid: Id): (r: Option<Resolved>)
    ensures r.None? <==> forall s :: s in rows ==> s.Cid() != cid
    ensures r.Some? ==> r.value in rows && r.value.Cid() == cid
    ensures r.Some? ==> forall s :: s in rows && s.Cid() == cid ==> r.value.householdId <= s.householdId
  {
    if rows == [] then None
    else
      assert rows == Init(rows) + [Last(rows)];
      var prev := Representative(Init(rows), cid);
      if Last(rows).Cid() == cid && (prev.None? || Last(rows).householdId < prev.value.householdId) then
        Some(Last(rows))
      else prev
  }

  function OneRow(rows: seq<Resolved>): seq<Resolved> {
    var ids := FirstSeen(rows);
    seq(|ids|, i requires 0 <= i < |ids| =>
      assert ids[i] in ids;
      Representative(rows, ids[i]).value)
  }

  method OneRowPerConversion(resolved: seq<Resolved>) returns (rows: seq<Resolved>)
    ensures rows == OneRow(resolved)
  {
    var byConv: map<Id, Resolved> := map[];
    var slots: seq<Id> := [];  // a dict remembers the order in which keys came in
    for i := 0 to |resolved|
      invariant slots == FirstSeen(resolved[..i])
      invariant forall c :: c in byConv <==> c in slots
      invariant forall c :: c in byConv ==> Representative(resolved[..i], c) == Some(byConv[c])
    {
      var r := resolved[i];
      assert Init(resolved[..i + 1]) == resolved[..i] && Last(resolved[..i + 1]) == r;
      if r.Cid() !in byConv {
        slots := slots + [r.Cid()];
        byConv := byConv[r.Cid() := r];
      } else if r.householdId < byConv[r.Cid()].householdId {
        byConv := byConv[r.Cid() := r];
      }
    }
    assert resolved[..|resolved|] == resolved;
    rows := seq(|slots|, i requires 0 <= i < |slots| =>
      assert slots[i] in slots;
      byConv[slots[i]]);
  }

  /** The collapse keeps a conversion's representative and nothing else. */
  lemma InOneRow(rows: seq<Resolved>, r: Resolved)
    ensures r in OneRow(rows) <==> Representative(rows, r.Cid()) == Some(r)
  {
    var ids, one := FirstSeen(rows), OneRow(rows);
    if r in one {
      var i :| 0 <= i < |one| && one[i] == r;
      assert ids[i] in ids;
    }
    if Representative(rows, r.Cid()) == Some(r) {
      assert r.Cid() in ids;
      var i :| 0 <= i < |ids| && ids[i] == r.Cid();
      assert one[i] == r;
    }
  }

  /** Exactly one row per conversion id, in first-arrival order. */
  lemma OneRowOrder(rows: seq<Resolved>)
    ensures |OneRow(rows)| == |FirstSeen(rows)|
    ensures forall i :: 0 <= i < |OneRow(rows)| ==> OneRow(rows)[i].Cid() == FirstSeen(rows)[i]
    ensures forall i, j :: 0 <= i < j < |OneRow(rows)| ==> OneRow(rows)[i].Cid() != OneRow(rows)[j].Cid()
  {
    var ids, one := FirstSeen(rows), OneRow(rows);
    forall i | 0 <= i < |one| ensures one[i].Cid() == ids[i] {
      assert ids[i] in ids;
    }
  }

  /** The household of row `p` is at least that of row `q`, and above it if `q` comes first. */
  predicate Beats(rows: seq<Resolved>, p: nat, q: nat)
    requires p < |rows| && q < |rows|
  {
    rows[p].householdId <= rows[q].householdId && (q < p ==> rows[p].householdId < rows[q].householdId)
  }

  lemma {:induction false} RepresentativeAt(rows: seq<Resolved>, cid: Id) returns (p: nat)
    requires Representative(rows, cid).Some?
    ensures p < |rows| && rows[p] == Representative(rows, cid).value
    ensures forall q :: 0 <= q < |rows| && rows[q].Cid() == cid ==> Beats(rows, p, q)
  {
    var prev := Representative(Init(rows), cid);
    if prev.Some? { p := RepresentativeAt(Init(rows), cid); }
    if prev.None? {
      p := |rows| - 1;
      forall q | 0 <= q < |rows| - 1 ensures rows[q].Cid() != cid { assert rows[q] in Init(rows); }
    } else if Representative(rows, cid) != prev {
      p := |rows| - 1;
    }
    forall q | 0 <= q < |rows| && rows[q].Cid() == cid ensures Beats(rows, p, q) {
      if q < |rows| - 1 { assert rows[q] == Init(rows)[q] && rows[q] in Init(rows); }
    }
  }

  lemma {:induction false} FirstSeenOrder(rows: seq<Resolved>, k: nat, l: nat)
    requires k < l < |FirstSeen(rows)|
    ensures exists i :: 0 <= i < |rows| && rows[i].Cid() == FirstSeen(rows)[k]
                        && forall j :: 0 <= j <= i ==> rows[j].Cid() != FirstSeen(rows)[l]
  {
    var prev := FirstSeen(Init(rows));
    if l < |prev| {
      FirstSeenOrder(Init(rows), k, l);
      var i :| 0 <= i < |Init(rows)| && Init(rows)[i].Cid() == prev[k]
               && forall j :: 0 <= j <= i ==> Init(rows)[j].Cid() != prev[l];
      assert rows[i].Cid() == prev[k];
      assert forall j :: 0 <= j <= i ==> rows[j] == Init(rows)[j];
    } else {
      assert prev[k] in prev;
      var r :| r in Init(rows) && r.Cid() == prev[k];
      var i :| 0 <= i < |Init(rows)| && Init(rows)[i] == r;
      assert rows[i].Cid() == prev[k];
      forall j | 0 <= j <= i ensures rows[j].Cid() != FirstSeen(rows)[l] { assert rows[j] in Init(rows); }
    }
  }

  /** The collapse, on the fields of the rows: a survivor is the first row of the lowest
      household among the rows of its conversion id. */
  lemma SurvivorIsLowest(rows: seq<Resolved>, k: nat)
    requires k < |OneRow(rows)|
    ensures exists p :: 0 <= p < |rows| && rows[p] == OneRow(rows)[k]
                        && forall q :: 0 <= q < |rows|
                                       && rows[q].conv.conversionId == rows[p].conv.conversionId ==>
                             rows[p].householdId <= rows[q].householdId
                             && (q < p ==> rows[p].householdId < rows[q].householdId)
  {
    hide Representative;
    OneRowOrder(rows);
    assert FirstSeen(rows)[k] in FirstSeen(rows);
    var p := RepresentativeAt(rows, FirstSeen(rows)[k]);
    assert forall q :: 0 <= q < |rows| && rows[q].conv.conversionId == rows[p].conv.conversionId ==> Beats(rows, p, q);
  }

  /** Every id survives. */
  lemma EveryIdSurvives(rows: seq<Resolved>, r: Resolved)
    requires r in rows
    ensures exists s :: s in OneRow(rows) && s.conv.conversionId == r.conv.conversionId
  {
    hide FirstSeen, Representative;
    OneRowOrder(rows);
    assert r.Cid() in FirstSeen(rows);
    var k :| 0 <= k < |FirstSeen(rows)| && FirstSeen(rows)[k] == r.Cid();
    assert OneRow(rows)[k] in OneRow(rows);
  }

  /** Of two survivors, the one whose id came in first comes first. */
  lemma SurvivorsInOrder(rows: seq<Resolved>, k: nat, l: nat)
    requires k < l < |OneRow(rows)|
    ensures exists i :: 0 <= i < |rows| && rows[i].conv.conversionId == OneRow(rows)[k].conv.conversionId
                        && forall j :: 0 <= j <= i ==>
                             rows[j].conv.conversionId != OneRow(rows)[l].conv.conversionId
  {
    hide FirstSeen, Representative, OneRow;
    OneRowOrder(rows);
    FirstSeenOrder(rows, k, l);
    var i :| 0 <= i < |rows| && rows[i].Cid() == FirstSeen(rows)[k]
             && forall j :: 0 <= j <= i ==> rows[j].Cid() != FirstSeen(rows)[l];
    assert rows[i].conv.conversionId == OneRow(rows)[k].conv.conversionId;
    assert forall j :: 0 <= j <= i ==> rows[j].Cid() == rows[j].conv.conversionId;
  }

  // ---------- candidate households ----------

  /** The households that an ambiguous conversion fanned out to. */
  function FanOut(rows: seq<Resolved>, cid: Id): set<Id> {
    set r | r in rows && r.candidateCount > 1 && r.Cid() == cid :: r.householdId
  }

  function AmbiguousIds(rows: seq<Resolved>): set<Id> {
    set r | r in rows && r.candidateCount > 1 :: r.Cid()
  }

  function CandidateHouseholds(rows: seq<Resolved>): map<Id, seq<Id>> {
    map c | c in AmbiguousIds(rows) :: SortedIds(FanOut(rows, c))
  }

  /** Only conversions with several candidates have a set: the households of their rows that
      say so, ascending. */
  lemma CandidateSetMeaning(rows: seq<Resolved>, cid: Id)
    ensures cid in CandidateHouseholds(rows) <==>
            exists r :: r in rows && r.candidateCount > 1 && r.conv.conversionId == cid
    ensures cid in CandidateHouseholds(rows) ==>
              forall p, q :: 0 <= p < q < |CandidateHouseholds(rows)[cid]| ==>
                CandidateHouseholds(rows)[cid][p] < CandidateHouseholds(rows)[cid][q]
    ensures cid in CandidateHouseholds(rows) ==>
              forall h :: h in CandidateHouseholds(rows)[cid] <==>
                exists r :: r in rows && r.candidateCount > 1 && r.conv.conversionId == cid && r.householdId == h
  {
    if r :| r in rows && r.candidateCount > 1 && r.conv.conversionId == cid { assert r.Cid() in AmbiguousIds(rows); }
    if cid in CandidateHouseholds(rows) {
      forall h ensures h in CandidateHouseholds(rows)[cid] <==>
        exists r :: r in rows && r.candidateCount > 1 && r.conv.conversionId == cid && r.householdId == h
      {
        assert h in CandidateHouseholds(rows)[cid] <==> h in FanOut(rows, cid);
      }
    }
  }

  method CandidateHouseholdsByConversion(rows: seq<Resolved>) returns (candidates: map<Id, seq<Id>>)
    ensures candidates == CandidateHouseholds(rows)
  {
    hide FanOut, AmbiguousIds;
    var seen: map<Id, set<Id>> := map[];
    NoneAmbiguous();
    for i := 0 to |rows|
      invariant seen.Keys == AmbiguousIds(rows[..i])
      invariant forall c :: c in seen ==> seen[c] == FanOut(rows[..i], c)
    {
      var r := rows[i];
      assert rows[..i + 1] == rows[..i] + [r];
      OneMoreAmbiguous(rows[..i], r);
      if r.candidateCount > 1 {
        seen := seen[r.Cid() := (if r.Cid() in seen then seen[r.Cid()] else {}) + {r.householdId}];
      }
    }
    assert rows[..|rows|] == rows;
    candidates := map c | c in seen :: SortedIds(seen[c]);
  }

  lemma NoneAmbiguous()
    ensures AmbiguousIds([]) == {}
  {
  }

  lemma OneMoreAmbiguous(rows: seq<Resolved>, r: Resolved)
    ensures AmbiguousIds(rows + [r]) == AmbiguousIds(rows) + (if r.candidateCount > 1 then {r.Cid()} else {})
    ensures forall c :: FanOut(rows + [r], c) ==
                        FanOut(rows, c) + (if r.candidateCount > 1 && c == r.Cid() then {r.householdId} else {})
    ensures forall c :: c !in AmbiguousIds(rows) ==> FanOut(rows, c) == {}
  {
  }

  // ---------- only the set of rows matters ----------

  ghost predicate SameSet<T(!new)>(a: seq<T>, b: seq<T>) {
    forall x :: x in a <==> x in b
  }

  /** A conversion has at most one row per household. */
  ghost predicate OnePerHousehold(rows: seq<Resolved>) {
    forall r, s :: r in rows && s in rows && ResolvedKey(r) == ResolvedKey(s) ==> r == s
  }

  lemma CollapseDependsOnTheSet(a: seq<Resolved>, b: seq<Resolved>)
    requires SameSet(a, b) && OnePerHousehold(a)
    ensures SameSet(OneRow(a), OneRow(b))
    ensures CandidateHouseholds(a) == CandidateHouseholds(b)
  {
    forall r ensures r in OneRow(a) <==> r in OneRow(b) {
      OneRowExactly(a, r);
      OneRowExactly(b, r);
    }
    assert AmbiguousIds(a) == AmbiguousIds(b);
    forall c ensures FanOut(a, c) == FanOut(b, c) {}
  }

  /** With one row per household, the collapse keeps exactly the lowest-household rows. */
  lemma OneRowExactly(rows: seq<Resolved>, r: Resolved)
    requires OnePerHousehold(rows)
    ensures r in OneRow(rows) <==>
            r in rows && forall s :: s in rows && s.Cid() == r.Cid() ==> r.householdId <= s.householdId
  {
    InOneRow(rows, r);
    var rep := Representative(rows, r.Cid());
    if r in rows && forall s :: s in rows && s.Cid() == r.Cid() ==> r.householdId <= s.householdId {
      assert ResolvedKey(r) == ResolvedKey(rep.value);
    }
  }
}
