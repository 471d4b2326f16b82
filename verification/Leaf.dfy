/** The attribution decision itself (streaming/attribute.py): one household, one
    conversion, one look-back window. The engine, its oracle and the reconciliation
    pass all call these functions. */
module Leaf {
  import opened Rows
  import opened Orders

  /** What the decision reads of an exposure: when it aired and its id. */
  datatype Touch = Touch(time: Time, id: Id)

  predicate TouchLe(a: Touch, b: Touch) {
    a.time < b.time || (a.time == b.time && a.id <= b.id)
  }

  function TouchOf(e: Exposure): Touch { Touch(e.eventTime, e.exposureId) }

  /** In the window and not after the conversion. */
  predicate Eligible(e: Exposure, conv: Resolved, window: Time) {
    conv.EventTime() - window <= e.eventTime <= conv.EventTime()
  }

  function EligibleTouches(exposures: seq<Exposure>, conv: Resolved, window: Time): set<Touch> {
    set e | e in exposures && Eligible(e, conv, window) :: TouchOf(e)
  }

  function IdsOf(touches: set<Touch>): set<Id> {
    set t | t in touches :: t.id
  }

  lemma {:induction false} HasLatest(s: set<Touch>)
    requires s != {}
    ensures exists t :: t in s && forall u :: u in s ==> TouchLe(u, t)
  {
    var x := Member(s);
    var rest := s - {x};
    if rest == {} {
      assert s == {x};
      assert x in s && forall u :: u in s ==> TouchLe(u, x);
    } else {
      HasLatest(rest);
      var m :| m in rest && forall u :: u in rest ==> TouchLe(u, m);
      var last := if TouchLe(m, x) then x else m;
      assert forall u :: u in s ==> u == x || u in rest;
      assert last in s && forall u :: u in s ==> TouchLe(u, last);
    }
  }

  /** `max` by `(event_time, exposure_id)`. */
  function Latest(s: set<Touch>): (t: Touch)
    requires s != {}
    ensures t in s && forall u :: u in s ==> TouchLe(u, t)
  {
    HasLatest(s);
    var t :| t in s && forall u :: u in s ==> TouchLe(u, t);
    t
  }

  /** One attribution result; `lastTouchTime` is not persisted. */
  datatype Candidate = Candidate(row: Attributed, lastTouchTime: Option<Time>)

  function HotRow(conv: Resolved, exposureId: Option<Id>, assists: seq<Id>, attributed: bool,
                  candidateHouseholds: seq<Id>): Attributed
  {
    var reason :=
      if attributed then None
      else if conv.candidateCount > 1 then Some(AmbiguousIp)
      else Some(StateMiss);
    Attributed(conv, exposureId, assists, attributed, Hot, conv.IngestTime(), reason, candidateHouseholds)
  }

  function Unattributed(conv: Resolved, candidateHouseholds: seq<Id>): Candidate {
    Candidate(HotRow(conv, None, [], false, candidateHouseholds), None)
  }

  /** Credit the latest touch; the other ids become assists. */
  function Credit(touches: set<Touch>, conv: Resolved, candidateHouseholds: seq<Id>): Candidate {
    if touches == {} then
      Unattributed(conv, candidateHouseholds)
    else
      var winner := Latest(touches);
      var assists := SortedIds(IdsOf(touches) - {winner.id});
      Candidate(HotRow(conv, Some(winner.id), assists, true, candidateHouseholds), Some(winner.time))
  }

  /** The leaf. `exposures` are the rows of one household. */
  function LastTouch(exposures: seq<Exposure>, conv: Resolved, window: Time, candidateHouseholds: seq<Id>): Candidate {
    Credit(EligibleTouches(exposures, conv, window), conv, candidateHouseholds)
  }

  /** The credit in terms of touches. */
  lemma CreditMeaning(exposures: seq<Exposure>, conv: Resolved, window: Time, hhs: seq<Id>)
    ensures var r := LastTouch(exposures, conv, window, hhs);
      && (r.row.attributed <==> exists e :: e in exposures && Eligible(e, conv, window))
      && (r.row.attributed <==> r.row.exposureId.Some?)
      && (!r.row.attributed ==> r.row.assists == [] && r.lastTouchTime.None?)
      && (r.row.attributed ==>
            && r.lastTouchTime.Some?
            && (exists e :: e in exposures && Eligible(e, conv, window)
                            && TouchOf(e) == Touch(r.lastTouchTime.value, r.row.exposureId.value))
            && (forall e :: e in exposures && Eligible(e, conv, window) ==>
                  TouchLe(TouchOf(e), Touch(r.lastTouchTime.value, r.row.exposureId.value)))
            && Ascending(r.row.assists)
            && r.row.exposureId.value !in r.row.assists
            && (forall id :: id in r.row.assists || id == r.row.exposureId.value <==>
                  exists e :: e in exposures && Eligible(e, conv, window) && e.exposureId == id))
  {
    var touches := EligibleTouches(exposures, conv, window);
    var r := LastTouch(exposures, conv, window, hhs);
    if e :| e in exposures && Eligible(e, conv, window) {
      assert TouchOf(e) in touches;
    }
    if touches != {} {
      var w := Latest(touches);
      var e0 :| e0 in exposures && Eligible(e0, conv, window) && TouchOf(e0) == w;
      forall e | e in exposures && Eligible(e, conv, window) ensures TouchLe(TouchOf(e), w) {
        assert TouchOf(e) in touches;
      }
      forall id ensures id in r.row.assists || id == w.id <==>
                        exists e :: e in exposures && Eligible(e, conv, window) && e.exposureId == id
      {
        assert id in r.row.assists || id == w.id <==> id in IdsOf(touches);
        if id in IdsOf(touches) {
          var t :| t in touches && t.id == id;
          var e :| e in exposures && Eligible(e, conv, window) && TouchOf(e) == t;
        }
        if e :| e in exposures && Eligible(e, conv, window) && e.exposureId == id {
          assert TouchOf(e) in touches;
        }
      }
    } else {
      assert forall e :: e in exposures && Eligible(e, conv, window) ==> TouchOf(e) in touches;
    }
  }

  /** What the leaf promises, on the fields of the rows it was given: a conversion is credited
      exactly when some exposure aired at most `window` before it and not after it; the
      credit is the latest such exposure, ties going to the greater id. */
  lemma LastTouchMeaning(exposures: seq<Exposure>, conv: Resolved, window: Time, hhs: seq<Id>)
    ensures var r := LastTouch(exposures, conv, window, hhs).row;
      r.res == conv && r.path == Hot && r.processedAt == conv.conv.ingestTime && r.candidateHouseholds == hhs
    ensures LastTouch(exposures, conv, window, hhs).row.attributed <==>
            exists e :: e in exposures && conv.conv.eventTime - window <= e.eventTime <= conv.conv.eventTime
    ensures var r := LastTouch(exposures, conv, window, hhs);
      !r.row.attributed ==>
        && r.row.exposureId == None && r.row.assists == [] && r.lastTouchTime == None
        && r.row.reason == Some(if conv.candidateCount > 1 then AmbiguousIp else StateMiss)
    ensures var r := LastTouch(exposures, conv, window, hhs);
      r.row.attributed ==>
        && r.row.reason == None
        && exists e :: e in exposures && conv.conv.eventTime - window <= e.eventTime <= conv.conv.eventTime
                       && r.row.exposureId == Some(e.exposureId) && r.lastTouchTime == Some(e.eventTime)
                       && forall f :: f in exposures
                                      && conv.conv.eventTime - window <= f.eventTime <= conv.conv.eventTime ==>
                            f.eventTime < e.eventTime ||
                            (f.eventTime == e.eventTime && f.exposureId <= e.exposureId)
  {
    hide LastTouch;
    CreditMeaning(exposures, conv, window, hhs);
    LastTouchStamps(exposures, conv, window, hhs);
    var r := LastTouch(exposures, conv, window, hhs);
    assert forall e :: Eligible(e, conv, window) <==>
                       conv.conv.eventTime - window <= e.eventTime <= conv.conv.eventTime;
    if r.row.attributed {
      var e :| e in exposures && Eligible(e, conv, window)
               && TouchOf(e) == Touch(r.lastTouchTime.value, r.row.exposureId.value);
      forall f | f in exposures && conv.conv.eventTime - window <= f.eventTime <= conv.conv.eventTime
        ensures f.eventTime < e.eventTime || (f.eventTime == e.eventTime && f.exposureId <= e.exposureId)
      {
        assert Eligible(f, conv, window) && TouchLe(TouchOf(f), TouchOf(e));
      }
    }
  }

  lemma LastTouchStamps(exposures: seq<Exposure>, conv: Resolved, window: Time, hhs: seq<Id>)
    ensures var r := LastTouch(exposures, conv, window, hhs).row;
      && r.res == conv && r.path == Hot && r.processedAt == conv.conv.ingestTime && r.candidateHouseholds == hhs
      && r.reason == if r.attributed then None
                     else Some(if conv.candidateCount > 1 then AmbiguousIp else StateMiss)
  {
  }

  /** The assists are the ids of the other exposures of the window, ascending. */
  lemma AssistsMeaning(exposures: seq<Exposure>, conv: Resolved, window: Time, hhs: seq<Id>)
    requires LastTouch(exposures, conv, window, hhs).row.attributed
    ensures var s := LastTouch(exposures, conv, window, hhs).row.assists;
      forall p, q :: 0 <= p < q < |s| ==> s[p] < s[q]
    ensures var r := LastTouch(exposures, conv, window, hhs).row;
      forall id :: id in r.assists <==>
        && Some(id) != r.exposureId
        && exists e :: e in exposures && e.exposureId == id
                       && conv.conv.eventTime - window <= e.eventTime <= conv.conv.eventTime
  {
    hide LastTouch;
    CreditMeaning(exposures, conv, window, hhs);
    var r := LastTouch(exposures, conv, window, hhs).row;
    assert forall e :: Eligible(e, conv, window) <==>
                       conv.conv.eventTime - window <= e.eventTime <= conv.conv.eventTime;
    forall id ensures id in r.assists <==>
                      && Some(id) != r.exposureId
                      && exists e :: e in exposures && e.exposureId == id
                                     && conv.conv.eventTime - window <= e.eventTime <= conv.conv.eventTime
    {
      assert id in r.assists || id == r.exposureId.value <==>
             exists e :: e in exposures && Eligible(e, conv, window) && e.exposureId == id;
    }
  }

  /** Every touch that `big` adds to `small` is older than all of `small`. */
  ghost predicate AddsOnlyOlder(small: set<Touch>, big: set<Touch>) {
    small <= big && forall t, u :: t in big - small && u in small ==> t.time < u.time
  }

  lemma LatestIgnoresOlder(small: set<Touch>, big: set<Touch>)
    requires small != {} && AddsOnlyOlder(small, big)
    ensures Latest(big) == Latest(small)
  {
    var a, b := Latest(small), Latest(big);
    assert a in big;
    assert TouchLe(a, b);
    assert b !in small ==> b.time < a.time;
    assert TouchLe(b, a);
  }

  /** Enlarging the window never changes an existing winner. */
  lemma WideningKeepsTheWinner(exposures: seq<Exposure>, conv: Resolved, narrow: Time, wide: Time, hhs: seq<Id>)
    requires narrow <= wide
    ensures var a, b := LastTouch(exposures, conv, narrow, hhs), LastTouch(exposures, conv, wide, hhs);
      a.row.attributed ==>
        && b.row.attributed
        && b.row.exposureId == a.row.exposureId
        && b.lastTouchTime == a.lastTouchTime
  {
    var small, big := EligibleTouches(exposures, conv, narrow), EligibleTouches(exposures, conv, wide);
    WiderAddsOnlyOlder(exposures, conv, narrow, wide);
    if small != {} { LatestIgnoresOlder(small, big); }
  }

  lemma WiderAddsOnlyOlder(exposures: seq<Exposure>, conv: Resolved, narrow: Time, wide: Time)
    requires narrow <= wide
    ensures AddsOnlyOlder(EligibleTouches(exposures, conv, narrow), EligibleTouches(exposures, conv, wide))
  {
    var small, big := EligibleTouches(exposures, conv, narrow), EligibleTouches(exposures, conv, wide);
    forall t | t in small ensures t in big {
      var e :| e in exposures && Eligible(e, conv, narrow) && TouchOf(e) == t;
      assert Eligible(e, conv, wide);
    }
    forall t, u | t in big - small && u in small ensures t.time < u.time {
      var e :| e in exposures && Eligible(e, conv, wide) && TouchOf(e) == t;
      assert !Eligible(e, conv, narrow);
    }
  }

  // ---------- the hot-path rule ----------

  /** The candidate set to persist: empty for a certain conversion, and required of
      the caller for an ambiguous one. */
  function CandidatesOf(conv: Resolved, candidates: map<Id, seq<Id>>): Result<seq<Id>> {
    if conv.candidateCount == 1 then Ok([])
    else if conv.Cid() !in candidates || candidates[conv.Cid()] == [] then ValueError
    else Ok(candidates[conv.Cid()])
  }

  /** The hot rule on one conversion: an ambiguous one is deferred without probing state. */
  function HotDecision(exposures: seq<Exposure>, conv: Resolved, window: Time, hhs: seq<Id>): Candidate {
    if conv.candidateCount > 1 then Unattributed(conv, hhs)
    else LastTouch(exposures, conv, window, [])
  }

  /** A deferred conversion gets this row whatever the exposures, a certain one the leaf's. */
  lemma HotRuleMeaning(exposures: seq<Exposure>, conv: Resolved, window: Time, hhs: seq<Id>)
    ensures conv.candidateCount > 1 ==>
        HotDecision(exposures, conv, window, hhs) ==
        Candidate(Attributed(conv, None, [], false, Hot, conv.conv.ingestTime, Some(AmbiguousIp), hhs), None)
    ensures conv.candidateCount == 1 ==>
        HotDecision(exposures, conv, window, hhs) == LastTouch(exposures, conv, window, [])
  {
  }

  function HotResult(exposures: seq<Exposure>, conv: Resolved, window: Time,
                     candidates: map<Id, seq<Id>>): Result<Candidate>
  {
    match CandidatesOf(conv, candidates)
    case ValueError => ValueError
    case Ok(hhs) =>
      var c := HotDecision(exposures, conv, window, hhs);
      if CandidateSetMatchesCount(c.row) then Ok(c) else ValueError
  }

  function AttributeHousehold(exposures: seq<Exposure>, resolved: seq<Resolved>, window: Time,
                              candidates: map<Id, seq<Id>>): Result<seq<Candidate>>
  {
    if resolved == [] then Ok([])
    else
      match HotResult(exposures, resolved[0], window, candidates)
      case ValueError => ValueError
      case Ok(c) =>
        match AttributeHousehold(exposures, resolved[1..], window, candidates)
        case ValueError => ValueError
        case Ok(cs) => Ok([c] + cs)
  }

  /** Whether the hot rule raises on `conv`. */
  predicate Raises(conv: Resolved, candidates: map<Id, seq<Id>>) {
    conv.candidateCount > 1 &&
    (conv.Cid() !in candidates ||
     !CandidateSetMatchesCount(Unattributed(conv, candidates[conv.Cid()]).row))
  }

  function CandidateSetOf(conv: Resolved, candidates: map<Id, seq<Id>>): seq<Id> {
    if conv.candidateCount > 1 && conv.Cid() in candidates then candidates[conv.Cid()] else []
  }

  /** Whether the hot rule raises does not depend on the exposures at hand. */
  lemma HotResultIs(exposures: seq<Exposure>, conv: Resolved, window: Time, candidates: map<Id, seq<Id>>)
    ensures HotResult(exposures, conv, window, candidates)
         == if Raises(conv, candidates) then ValueError
            else Ok(HotDecision(exposures, conv, window, CandidateSetOf(conv, candidates)))
  {
  }

  /** The validator, said with sets: the candidate set of an ambiguous row is some set of
      `candidateCount` households that has the row's own, sorted; a certain row has none. */
  lemma ValidMeaning(a: Attributed)
    ensures a.res.candidateCount == 1 ==> (CandidateSetMatchesCount(a) <==> a.candidateHouseholds == [])
    ensures a.res.candidateCount > 1 ==>
      (CandidateSetMatchesCount(a) <==>
       exists s: set<Id> :: |s| == a.res.candidateCount && a.res.householdId in s
                            && a.candidateHouseholds == SortedIds(s))
  {
    var hhs := a.candidateHouseholds;
    if CandidateSetMatchesCount(a) && a.res.candidateCount > 1 {
      var s := set h | h in hhs;
      AscendingCount(hhs);
      AscendingUnique(hhs, SortedIds(s));
      assert |s| == a.res.candidateCount && a.res.householdId in s;
    }
  }

  /** So the hot rule raises exactly on an ambiguous conversion for which no such set was
      captured. */
  lemma HotRaisesIff(exposures: seq<Exposure>, conv: Resolved, window: Time, candidates: map<Id, seq<Id>>)
    ensures HotResult(exposures, conv, window, candidates).ValueError? <==>
      && conv.candidateCount > 1
      && !(&& conv.conv.conversionId in candidates
           && exists s: set<Id> :: |s| == conv.candidateCount && conv.householdId in s
                                   && candidates[conv.conv.conversionId] == SortedIds(s))
  {
    hide CandidateSetMatchesCount;
    HotResultIs(exposures, conv, window, candidates);
    if conv.candidateCount > 1 && conv.Cid() in candidates {
      ValidMeaning(Unattributed(conv, candidates[conv.Cid()]).row);
    }
  }

  lemma AttributeOne(exposures: seq<Exposure>, conv: Resolved, window: Time, candidates: map<Id, seq<Id>>)
    ensures AttributeHousehold(exposures, [conv], window, candidates)
         == if Raises(conv, candidates) then ValueError
            else Ok([HotDecision(exposures, conv, window, CandidateSetOf(conv, candidates))])
  {
    HotResultIs(exposures, conv, window, candidates);
    assert [conv][1..] == [] && [conv][0] == conv;
    assert AttributeHousehold(exposures, [], window, candidates) == Ok([]);
    var c := HotDecision(exposures, conv, window, CandidateSetOf(conv, candidates));
    assert [c] + [] == [c];
  }

  lemma {:induction false} AttributeMany(exposures: seq<Exposure>, resolved: seq<Resolved>, window: Time,
                                         candidates: map<Id, seq<Id>>)
    ensures var r := AttributeHousehold(exposures, resolved, window, candidates);
      if exists c :: c in resolved && Raises(c, candidates) then r == ValueError
      else
        && r.Ok? && |r.value| == |resolved|
        && forall i :: 0 <= i < |resolved| ==>
             r.value[i] == HotDecision(exposures, resolved[i], window, CandidateSetOf(resolved[i], candidates))
  {
    if resolved != [] {
      HotResultIs(exposures, resolved[0], window, candidates);
      AttributeMany(exposures, resolved[1..], window, candidates);
      assert resolved[0] in resolved;
      assert forall c :: c in resolved[1..] ==> c in resolved;
      assert forall c :: c in resolved ==> c == resolved[0] || c in resolved[1..];
    }
  }
}
