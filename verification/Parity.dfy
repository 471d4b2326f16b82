/** The two engines agree: the evicting stream join against its non-evicting oracle, and
    each of them against itself on re-ordered, re-sent or deduplicated input. */
module Parity {
  import opened Rows
  import opened Orders
  import opened Leaf
  import opened Collapse
  import opened Engine
  import opened Lateness
  import opened Dataflow

  // ---------- the evicting engine refines the oracle ----------

  /** Nothing arrives before it happens, exposures are at most `lateness` late, and one
      of the two is strict. Conversions may be as late as they like. */
  ghost predicate RunInTolerance(exposures: seq<Exposure>, resolved: seq<Resolved>, lateness: Time) {
    && (forall e :: e in exposures ==> e.eventTime <= e.ingestTime <= e.eventTime + lateness)
    && (forall c :: c in resolved ==> c.EventTime() <= c.IngestTime())
    && (|| ((forall e :: e in exposures ==> e.eventTime < e.ingestTime) &&
            (forall c :: c in resolved ==> c.EventTime() < c.IngestTime()))
        || (forall e :: e in exposures ==> e.ingestTime < e.eventTime + lateness))
  }

  lemma StreamInTolerance(exposures: seq<Exposure>, resolved: seq<Resolved>, h: Id, lateness: Time)
    requires RunInTolerance(exposures, resolved, lateness)
    ensures ExposuresInTolerance(Stream(exposures, OneRow(resolved), h), lateness)
  {
    hide Stream, OneRow;
    var es := Stream(exposures, OneRow(resolved), h);
    forall m | m in es
      ensures m.Exp? ==> m.exposure in exposures
      ensures m.Res? ==> m.conv in resolved
    {
      StreamIs(exposures, OneRow(resolved), h, m);
      if m.Res? { InOneRow(resolved, m.conv); }
    }
  }

  lemma StreamIsSorted(exposures: seq<Exposure>, rows: seq<Resolved>, h: Id)
    ensures SortedBy(Stream(exposures, rows, h), ArrivalLe)
  {
    ArrivalSorts(HouseholdEvents(exposures, rows, h));
  }

  /** The leaf reads the set of a household's exposures, not their order or number. */
  lemma SameTouches(a: seq<Exposure>, b: seq<Exposure>, c: Resolved, window: Time)
    requires forall e :: Eligible(e, c, window) ==> (e in a <==> e in b)
    ensures EligibleTouches(a, c, window) == EligibleTouches(b, c, window)
  {
    TouchesWithin(a, b, c, window);
    TouchesWithin(b, a, c, window);
  }

  lemma TouchesWithin(a: seq<Exposure>, b: seq<Exposure>, c: Resolved, window: Time)
    requires forall e :: Eligible(e, c, window) && e in a ==> e in b
    ensures EligibleTouches(a, c, window) <= EligibleTouches(b, c, window)
  {
  }

  lemma StreamTouches(exposures: seq<Exposure>, rows: seq<Resolved>, c: Resolved, window: Time)
    ensures EligibleTouches(ExposuresOf(Stream(exposures, rows, c.householdId)), c, window)
         == EligibleTouches(ExposuresAt(exposures, c.householdId), c, window)
  {
    hide Stream, ExposuresOf, ExposuresAt;
    var es := Stream(exposures, rows, c.householdId);
    forall e ensures e in ExposuresOf(es) <==> e in ExposuresAt(exposures, c.householdId) {
      ExposuresOfIs(es, e);
      StreamIs(exposures, rows, c.householdId, Exp(e));
      ExposuresAtIs(exposures, c.householdId, e);
    }
    SameTouches(ExposuresOf(es), ExposuresAt(exposures, c.householdId), c, window);
  }

  /** Where a conversion of the run sits in its household's stream. */
  lemma Position(exposures: seq<Exposure>, resolved: seq<Resolved>, c: Resolved, lateness: Time) returns (p: nat)
    requires c in OneRow(resolved)
    ensures var es := Stream(exposures, OneRow(resolved), c.householdId);
      && OnlyAt(es, p) && es[p] == Res(c)
      && EngineCandidate(exposures, resolved, c, lateness)
         == Decision(es, p, HOT_WINDOW, lateness, CandidateHouseholds(resolved))
  {
    hide Stream, OneRow, Decision, CandidateHouseholds;
    var es := Stream(exposures, OneRow(resolved), c.householdId);
    StreamIs(exposures, OneRow(resolved), c.householdId, Res(c));
    p := IndexOf(es, Res(c));
    OneRowDistinct(resolved);
    StreamHoldsOnce(exposures, OneRow(resolved), c.householdId, p);
  }

  /** In tolerance throughout, the evicting engine equals the oracle row for row:
      credit, assists, reason and candidate set. */
  lemma EngineRefinesOracle(exposures: seq<Exposure>, resolved: seq<Resolved>, lateness: Time)
    requires RunInTolerance(exposures, resolved, lateness)
    requires forall c :: c in resolved ==> ConversionInTolerance(c, lateness)
    ensures EngineOutput(exposures, resolved, lateness) == OracleOutput(exposures, resolved)
  {
    hide Stream, OneRow, Decision, CandidateHouseholds, RunInTolerance, SortedBy, EngineCandidate, OracleCandidate;
    var one := OneRow(resolved);
    forall c | c in one
      ensures EngineCandidate(exposures, resolved, c, lateness) == OracleCandidate(exposures, resolved, c)
    {
      InOneRow(resolved, c);
      EngineIsOracle(exposures, resolved, c, lateness);
    }
    TabulateCongruence(one, EngineRow(exposures, resolved, lateness), OracleRow(exposures, resolved));
  }

  lemma EngineIsOracle(exposures: seq<Exposure>, resolved: seq<Resolved>, c: Resolved, lateness: Time)
    requires RunInTolerance(exposures, resolved, lateness)
    requires c in OneRow(resolved) && ConversionInTolerance(c, lateness)
    ensures EngineCandidate(exposures, resolved, c, lateness) == OracleCandidate(exposures, resolved, c)
  {
    hide Stream, OneRow, Decision, CandidateHouseholds, RunInTolerance, SortedBy, EngineCandidate, Credit,
         EligibleTouches;
    var p := Position(exposures, resolved, c, lateness);
    StreamIsSorted(exposures, OneRow(resolved), c.householdId);
    StreamInTolerance(exposures, resolved, c.householdId, lateness);
    StreamTouches(exposures, OneRow(resolved), c, HOT_WINDOW);
    InToleranceIsExact(Stream(exposures, OneRow(resolved), c.householdId), p, HOT_WINDOW, lateness,
                       CandidateHouseholds(resolved));
  }

  /** With conversions arbitrarily late, a certain one gets the oracle's credit or none. */
  lemma LateConversionsOnlyLoseCredit(exposures: seq<Exposure>, resolved: seq<Resolved>, c: Resolved, lateness: Time)
    requires RunInTolerance(exposures, resolved, lateness)
    requires c in OneRow(resolved) && c.candidateCount == 1
    ensures var hot, full := EngineCandidate(exposures, resolved, c, lateness), OracleCandidate(exposures, resolved, c);
      if hot.row.attributed then
        && full.row.attributed && hot.row.exposureId == full.row.exposureId && hot.lastTouchTime == full.lastTouchTime
        && forall id :: id in hot.row.assists ==> id in full.row.assists
      else
        hot == Unattributed(c, []) && hot.row.reason == Some(StateMiss)
  {
    hide Stream, OneRow, Decision, CandidateHouseholds, RunInTolerance, SortedBy, EngineCandidate, EligibleTouches;
    var p := Position(exposures, resolved, c, lateness);
    StreamIsSorted(exposures, OneRow(resolved), c.householdId);
    StreamInTolerance(exposures, resolved, c.householdId, lateness);
    StreamTouches(exposures, OneRow(resolved), c, HOT_WINDOW);
    EvictionOnlyRemovesCredit(Stream(exposures, OneRow(resolved), c.householdId), p, HOT_WINDOW, lateness,
                              CandidateHouseholds(resolved));
  }

  // ---------- exactly when the engine equals the oracle ----------

  /** Every exposure that is eligible for a certain conversion is seen by it, as read off
      the arrival order of its household's events. */
  ghost predicate EveryTouchSeen(exposures: seq<Exposure>, resolved: seq<Resolved>, c: Resolved, lateness: Time) {
    forall e :: e in exposures && e.householdId == c.householdId && Eligible(e, c, HOT_WINDOW) ==>
      SeenIn(HouseholdEvents(exposures, OneRow(resolved), c.householdId), e, c, HOT_WINDOW, lateness)
  }

  /** No two different events of a household arrive at the same instant under one id. */
  lemma StreamTies(exposures: seq<Exposure>, resolved: seq<Resolved>, h: Id)
    requires UniqueExposures(exposures)
    ensures TiesAreEqual(Stream(exposures, OneRow(resolved), h), ArrivalLe)
    ensures UniqueExposures(ExposuresOf(Stream(exposures, OneRow(resolved), h)))
  {
    hide Stream, OneRow, ExposuresOf, DistinctCids;
    var one := OneRow(resolved);
    var es := Stream(exposures, one, h);
    OneRowDistinct(resolved);
    forall x, y | x in es && y in es && ArrivalLe(x, y) && ArrivalLe(y, x) ensures x == y {
      StreamIs(exposures, one, h, x);
      StreamIs(exposures, one, h, y);
      if x.Res? && x != y { DistinctConversions(one, x.conv, y.conv); }
    }
    forall e, f | e in ExposuresOf(es) && f in ExposuresOf(es) && e.exposureId == f.exposureId ensures e == f {
      ExposuresOfIs(es, e);
      ExposuresOfIs(es, f);
      StreamIs(exposures, one, h, Exp(e));
      StreamIs(exposures, one, h, Exp(f));
    }
  }

  lemma SeenInSameSet(a: seq<Event>, b: seq<Event>, e: Exposure, c: Resolved, window: Time, lateness: Time)
    requires SameSet(a, b)
    ensures SeenIn(a, e, c, window, lateness) <==> SeenIn(b, e, c, window, lateness)
  {
  }

  /** What it means to be seen, on the fields of the rows. If the conversion arrives before the
      exposure, no event that arrives before the exposure is `lateness` past the conversion,
      so that it is still pending; and if the exposure arrives first, no event that arrives
      before the conversion is more than `window + lateness` past the exposure, so that it is
      still held. */
  lemma SeenMeaning(exposures: seq<Exposure>, rows: seq<Resolved>, e: Exposure, c: Resolved, window: Time,
                    lateness: Time)
    ensures SeenIn(HouseholdEvents(exposures, rows, c.householdId), e, c, window, lateness) <==>
      && (c.conv.ingestTime < e.ingestTime ==>
            && (forall f :: f in exposures && f.householdId == c.householdId &&
                            (f.ingestTime < e.ingestTime ||
                             (f.ingestTime == e.ingestTime && f.exposureId < e.exposureId)) ==>
                  f.eventTime - lateness < c.conv.eventTime)
            && (forall d :: d in rows && d.householdId == c.householdId && d.conv.ingestTime < e.ingestTime ==>
                  d.conv.eventTime - lateness < c.conv.eventTime))
      && (e.ingestTime <= c.conv.ingestTime ==>
            && (forall f :: f in exposures && f.householdId == c.householdId && f.ingestTime <= c.conv.ingestTime ==>
                  f.eventTime - lateness <= e.eventTime + window)
            && (forall d :: d in rows && d.householdId == c.householdId &&
                            (d.conv.ingestTime < c.conv.ingestTime ||
                             (d.conv.ingestTime == c.conv.ingestTime && d.conv.conversionId < c.conv.conversionId)) ==>
                  d.conv.eventTime - lateness <= e.eventTime + window))
  {
    SeenBeforeExposure(exposures, rows, e, c, lateness);
    SeenBeforeConversion(exposures, rows, e, c, window, lateness);
  }

  lemma SeenBeforeExposure(exposures: seq<Exposure>, rows: seq<Resolved>, e: Exposure, c: Resolved, lateness: Time)
    ensures ArrivalLt(Res(c), Exp(e)) <==> c.conv.ingestTime < e.ingestTime
    ensures (forall m :: m in HouseholdEvents(exposures, rows, c.householdId) && ArrivalLt(m, Exp(e)) ==>
               m.EventTime() - lateness < c.EventTime())
       <==> && (forall f :: f in exposures && f.householdId == c.householdId &&
                            (f.ingestTime < e.ingestTime ||
                             (f.ingestTime == e.ingestTime && f.exposureId < e.exposureId)) ==>
                  f.eventTime - lateness < c.conv.eventTime)
            && (forall d :: d in rows && d.householdId == c.householdId && d.conv.ingestTime < e.ingestTime ==>
                  d.conv.eventTime - lateness < c.conv.eventTime)
  {
    hide HouseholdEvents;
    var events := HouseholdEvents(exposures, rows, c.householdId);
    forall f | f in exposures && f.householdId == c.householdId ensures Exp(f) in events {
      HouseholdEventsAre(exposures, rows, c.householdId, Exp(f));
    }
    forall d | d in rows && d.householdId == c.householdId ensures Res(d) in events {
      HouseholdEventsAre(exposures, rows, c.householdId, Res(d));
    }
    forall m { HouseholdEventsAre(exposures, rows, c.householdId, m); }
  }

  lemma SeenBeforeConversion(exposures: seq<Exposure>, rows: seq<Resolved>, e: Exposure, c: Resolved, window: Time,
                             lateness: Time)
    ensures ArrivalLt(Exp(e), Res(c)) <==> e.ingestTime <= c.conv.ingestTime
    ensures (forall m :: m in HouseholdEvents(exposures, rows, c.householdId) && ArrivalLt(m, Res(c)) ==>
               m.EventTime() - lateness <= e.eventTime + window)
       <==> && (forall f :: f in exposures && f.householdId == c.householdId && f.ingestTime <= c.conv.ingestTime ==>
                  f.eventTime - lateness <= e.eventTime + window)
            && (forall d :: d in rows && d.householdId == c.householdId &&
                            (d.conv.ingestTime < c.conv.ingestTime ||
                             (d.conv.ingestTime == c.conv.ingestTime && d.conv.conversionId < c.conv.conversionId)) ==>
                  d.conv.eventTime - lateness <= e.eventTime + window)
  {
    hide HouseholdEvents;
    var events := HouseholdEvents(exposures, rows, c.householdId);
    forall f | f in exposures && f.householdId == c.householdId ensures Exp(f) in events {
      HouseholdEventsAre(exposures, rows, c.householdId, Exp(f));
    }
    forall d | d in rows && d.householdId == c.householdId ensures Res(d) in events {
      HouseholdEventsAre(exposures, rows, c.householdId, Res(d));
    }
    forall m { HouseholdEventsAre(exposures, rows, c.householdId, m); }
  }

  /** What the engine decides for a certain conversion, whatever its lateness: it is credited
      iff it has seen an exposure that aired in the seven days up to it, and then to the
      latest that it has seen. `SeenMeaning` says what that is on the input alone. */
  lemma EngineMeaning(exposures: seq<Exposure>, resolved: seq<Resolved>, c: Resolved, lateness: Time)
    requires UniqueExposures(exposures) && c in OneRow(resolved) && c.candidateCount == 1
    ensures var events := HouseholdEvents(exposures, OneRow(resolved), c.householdId);
      EngineCandidate(exposures, resolved, c, lateness).row.attributed <==>
      exists e :: e in exposures && e.householdId == c.householdId
                  && c.conv.eventTime - 604_800_000 <= e.eventTime <= c.conv.eventTime
                  && SeenIn(events, e, c, 604_800_000, lateness)
    ensures var events := HouseholdEvents(exposures, OneRow(resolved), c.householdId);
      var r := EngineCandidate(exposures, resolved, c, lateness).row;
      r.attributed ==>
        exists e :: e in exposures && e.householdId == c.householdId && r.exposureId == Some(e.exposureId)
                    && c.conv.eventTime - 604_800_000 <= e.eventTime <= c.conv.eventTime
                    && SeenIn(events, e, c, 604_800_000, lateness)
                    && forall f :: f in exposures && f.householdId == c.householdId
                                   && c.conv.eventTime - 604_800_000 <= f.eventTime <= c.conv.eventTime
                                   && SeenIn(events, f, c, 604_800_000, lateness) ==>
                         f.eventTime < e.eventTime ||
                         (f.eventTime == e.eventTime && f.exposureId <= e.exposureId)
  {
    hide Stream, OneRow, CandidateHouseholds, EngineCandidate, HouseholdEvents, SeenIn, Latest, Credit;
    var h := c.householdId;
    var events := HouseholdEvents(exposures, OneRow(resolved), h);
    var touches := EngineTouches(exposures, resolved, c, lateness);
    CreditIs(touches, c);
    forall e | e in exposures && e.householdId == h
               && c.conv.eventTime - 604_800_000 <= e.eventTime <= c.conv.eventTime
               && SeenIn(events, e, c, 604_800_000, lateness)
      ensures TouchOf(e) in touches
    {
    }
    if touches != {} {
      var e :| e in exposures && e.householdId == h && Eligible(e, c, HOT_WINDOW)
               && SeenIn(events, e, c, HOT_WINDOW, lateness) && TouchOf(e) == Latest(touches);
      forall f | f in exposures && f.householdId == h
                 && c.conv.eventTime - 604_800_000 <= f.eventTime <= c.conv.eventTime
                 && SeenIn(events, f, c, 604_800_000, lateness)
        ensures f.eventTime < e.eventTime || (f.eventTime == e.eventTime && f.exposureId <= e.exposureId)
      {
        assert TouchLe(TouchOf(f), TouchOf(e));
      }
    }
  }

  lemma EngineAssists(exposures: seq<Exposure>, resolved: seq<Resolved>, c: Resolved, lateness: Time)
    requires UniqueExposures(exposures) && c in OneRow(resolved) && c.candidateCount == 1
    ensures var r := EngineCandidate(exposures, resolved, c, lateness).row;
      && r.res == c && r.path == Hot && r.processedAt == c.conv.ingestTime && r.candidateHouseholds == []
      && (!r.attributed ==> r.exposureId == None && r.assists == [] && r.reason == Some(StateMiss))
      && (r.attributed ==> r.reason == None)
    ensures var s := EngineCandidate(exposures, resolved, c, lateness).row.assists;
      forall p, q :: 0 <= p < q < |s| ==> s[p] < s[q]
    ensures var events := HouseholdEvents(exposures, OneRow(resolved), c.householdId);
      var r := EngineCandidate(exposures, resolved, c, lateness).row;
      r.attributed ==>
        forall id :: id in r.assists <==>
          && Some(id) != r.exposureId
          && exists e :: e in exposures && e.householdId == c.householdId && e.exposureId == id
                         && c.conv.eventTime - 604_800_000 <= e.eventTime <= c.conv.eventTime
                         && SeenIn(events, e, c, 604_800_000, lateness)
  {
    hide Stream, OneRow, CandidateHouseholds, EngineCandidate, HouseholdEvents, SeenIn, Latest;
    var events := HouseholdEvents(exposures, OneRow(resolved), c.householdId);
    var touches := EngineTouches(exposures, resolved, c, lateness);
    var r := EngineCandidate(exposures, resolved, c, lateness).row;
    if touches != {} {
      forall id ensures id in IdsOf(touches) <==>
          exists e :: e in exposures && e.householdId == c.householdId && e.exposureId == id
                      && c.conv.eventTime - 604_800_000 <= e.eventTime <= c.conv.eventTime
                      && SeenIn(events, e, c, 604_800_000, lateness)
      {
        if id in IdsOf(touches) {
          var t :| t in touches && t.id == id;
          var e :| e in exposures && e.householdId == c.householdId && Eligible(e, c, HOT_WINDOW)
                   && SeenIn(events, e, c, HOT_WINDOW, lateness) && TouchOf(e) == t;
        }
        if e :| e in exposures && e.householdId == c.householdId && e.exposureId == id
                && c.conv.eventTime - 604_800_000 <= e.eventTime <= c.conv.eventTime
                && SeenIn(events, e, c, 604_800_000, lateness) {
          assert TouchOf(e) in touches;
        }
      }
    }
  }

  /** A conversion with several candidates is deferred, with the households of its rows. */
  lemma EngineDefers(exposures: seq<Exposure>, resolved: seq<Resolved>, c: Resolved, lateness: Time)
    requires c in OneRow(resolved) && c.candidateCount > 1
    ensures var r := EngineCandidate(exposures, resolved, c, lateness).row;
      && r == Attributed(c, None, [], false, Hot, c.conv.ingestTime, Some(AmbiguousIp), r.candidateHouseholds)
      && (forall p, q :: 0 <= p < q < |r.candidateHouseholds| ==> r.candidateHouseholds[p] < r.candidateHouseholds[q])
    ensures forall h :: h in EngineCandidate(exposures, resolved, c, lateness).row.candidateHouseholds <==>
              exists r :: r in resolved && r.candidateCount > 1 && r.conv.conversionId == c.conv.conversionId
                          && r.householdId == h
  {
    hide Stream, OneRow, CandidateHouseholds, ProbedState;
    var p := Position(exposures, resolved, c, lateness);
    InOneRow(resolved, c);
    CandidateSetMeaning(resolved, c.conv.conversionId);
  }

  lemma CreditIs(touches: set<Touch>, c: Resolved)
    ensures Credit(touches, c, []).row.attributed <==> touches != {}
    ensures touches != {} ==> Credit(touches, c, []).row.exposureId == Some(Latest(touches).id)
  {
  }

  lemma EngineTouches(exposures: seq<Exposure>, resolved: seq<Resolved>, c: Resolved, lateness: Time)
    returns (touches: set<Touch>)
    requires UniqueExposures(exposures) && c in OneRow(resolved) && c.candidateCount == 1
    ensures var events := HouseholdEvents(exposures, OneRow(resolved), c.householdId);
      forall t :: t in touches <==>
        exists e :: e in exposures && e.householdId == c.householdId && Eligible(e, c, HOT_WINDOW)
                    && SeenIn(events, e, c, HOT_WINDOW, lateness) && TouchOf(e) == t
    ensures EngineCandidate(exposures, resolved, c, lateness) == Credit(touches, c, [])
  {
    hide Stream, OneRow, CandidateHouseholds, EngineCandidate, Credit, ProbedState, ExposuresOf, SeenIn,
         HouseholdEvents, SortedBy, TiesAreEqual;
    var h := c.householdId;
    var es := Stream(exposures, OneRow(resolved), h);
    var events := HouseholdEvents(exposures, OneRow(resolved), h);
    var p := Position(exposures, resolved, c, lateness);
    StreamIsSorted(exposures, OneRow(resolved), h);
    StreamTies(exposures, resolved, h);
    ProbedAreSeen(es, p, HOT_WINDOW, lateness);
    touches := SeenTouches(es, c, HOT_WINDOW, lateness);
    StreamSameSet(exposures, OneRow(resolved), h);
    forall e ensures e in ExposuresOf(es) <==> e in exposures && e.householdId == h {
      ExposuresOfIs(es, e);
      StreamIs(exposures, OneRow(resolved), h, Exp(e));
    }
    forall e ensures SeenIn(es, e, c, HOT_WINDOW, lateness) <==> SeenIn(events, e, c, HOT_WINDOW, lateness) {
      SeenInSameSet(es, events, e, c, HOT_WINDOW, lateness);
    }
  }

  /** And the oracle: the same over everything that the household was shown. */
  lemma OracleMeaning(exposures: seq<Exposure>, resolved: seq<Resolved>, c: Resolved)
    requires c.candidateCount == 1
    ensures OracleCandidate(exposures, resolved, c).row.attributed <==>
            exists e :: e in exposures && e.householdId == c.householdId
                        && c.conv.eventTime - 604_800_000 <= e.eventTime <= c.conv.eventTime
    ensures var r := OracleCandidate(exposures, resolved, c).row;
      r.attributed ==>
        exists e :: e in exposures && e.householdId == c.householdId && r.exposureId == Some(e.exposureId)
                    && c.conv.eventTime - 604_800_000 <= e.eventTime <= c.conv.eventTime
                    && forall f :: f in exposures && f.householdId == c.householdId
                                   && c.conv.eventTime - 604_800_000 <= f.eventTime <= c.conv.eventTime ==>
                         f.eventTime < e.eventTime ||
                         (f.eventTime == e.eventTime && f.exposureId <= e.exposureId)
  {
    hide ExposuresAt, CandidateHouseholds, LastTouch;
    var mine := ExposuresAt(exposures, c.householdId);
    LastTouchMeaning(mine, c, HOT_WINDOW, []);
    forall e ensures e in mine <==> e in exposures && e.householdId == c.householdId {
      ExposuresAtIs(exposures, c.householdId, e);
    }
  }

  lemma RowExactIff(exposures: seq<Exposure>, resolved: seq<Resolved>, c: Resolved, lateness: Time)
    requires UniqueExposures(exposures) && c in OneRow(resolved)
    ensures EngineCandidate(exposures, resolved, c, lateness).row == OracleCandidate(exposures, resolved, c).row
       <==> c.candidateCount > 1 || EveryTouchSeen(exposures, resolved, c, lateness)
  {
    hide Stream, OneRow, CandidateHouseholds, SortedBy, TiesAreEqual, EngineCandidate, Credit, EligibleTouches;
    hide HouseholdEvents, SeenIn, ProbedState, ExposuresOf, ExposuresAt, UniqueExposures;
    var h := c.householdId;
    var one, es := OneRow(resolved), Stream(exposures, OneRow(resolved), c.householdId);
    var p := Position(exposures, resolved, c, lateness);
    if c.candidateCount == 1 {
      StreamIsSorted(exposures, one, h);
      StreamTies(exposures, resolved, h);
      StreamTouches(exposures, one, c, HOT_WINDOW);
      ExactIffSeen(es, p, HOT_WINDOW, lateness, CandidateHouseholds(resolved));
      StreamSameSet(exposures, one, h);
      forall e ensures e in ExposuresOf(es) <==> e in exposures && e.householdId == h {
        ExposuresOfIs(es, e);
        StreamIs(exposures, one, h, Exp(e));
      }
      forall e ensures SeenIn(es, e, c, HOT_WINDOW, lateness)
                  <==> SeenIn(HouseholdEvents(exposures, one, h), e, c, HOT_WINDOW, lateness)
      {
        SeenInSameSet(es, HouseholdEvents(exposures, one, h), e, c, HOT_WINDOW, lateness);
      }
    }
  }

  lemma StreamSameSet(exposures: seq<Exposure>, rows: seq<Resolved>, h: Id)
    ensures SameSet(Stream(exposures, rows, h), HouseholdEvents(exposures, rows, h))
  {
    ArrivalSameSet(HouseholdEvents(exposures, rows, h));
  }

  /** On every input whose exposure ids are unique, with no lateness assumption: the
      evicting engine equals the oracle exactly when every touch is seen. */
  lemma EngineEqualsOracleIff(exposures: seq<Exposure>, resolved: seq<Resolved>, lateness: Time)
    requires UniqueExposures(exposures)
    ensures EngineOutput(exposures, resolved, lateness) == OracleOutput(exposures, resolved)
       <==> forall c :: c in OneRow(resolved) && c.candidateCount == 1 ==>
                        EveryTouchSeen(exposures, resolved, c, lateness)
  {
    hide OneRow, EngineCandidate, OracleCandidate, EveryTouchSeen, UniqueExposures;
    var one := OneRow(resolved);
    forall c | c in one
      ensures EngineRow(exposures, resolved, lateness)(c) == OracleRow(exposures, resolved)(c)
         <==> c.candidateCount > 1 || EveryTouchSeen(exposures, resolved, c, lateness)
    {
      RowExactIff(exposures, resolved, c, lateness);
    }
    TabulateCongruence(one, EngineRow(exposures, resolved, lateness), OracleRow(exposures, resolved));
  }

  /** Both lateness bounds non-strict are not enough: a run on which every event is late by at
      most the allowed lateness, and the two outputs differ. */
  lemma OutputsNeedStrictness() returns (exposures: seq<Exposure>, resolved: seq<Resolved>, lateness: Time)
    ensures UniqueExposures(exposures)
    ensures forall e :: e in exposures ==> 0 <= e.ingestTime - e.eventTime <= lateness
    ensures forall r :: r in resolved ==> 0 <= r.IngestTime() - r.EventTime() <= lateness
    ensures EngineOutput(exposures, resolved, lateness) != OracleOutput(exposures, resolved)
  {
    hide EngineOutput, OracleOutput, OneRow, HouseholdEvents;
    var c := Resolved(Conversion(1, 90, 95, 0, 0, Purchase, 0, None), 7, ByDevice, false, 1);
    var m := Exposure(1, 100, 100, 0, 7, 0, 0, 0, 0);
    var e := Exposure(2, 90, 100, 0, 7, 0, 0, 0, 0);
    exposures, resolved, lateness := [m, e], [c], 10;
    assert exposures[0] == m && exposures[1] == e && resolved[0] == c;
    OneRowExactly(resolved, c);
    var events := HouseholdEvents(exposures, OneRow(resolved), 7);
    HouseholdEventsAre(exposures, OneRow(resolved), 7, Exp(m));
    assert Exp(m) in events && ArrivalLt(Exp(m), Exp(e)) && ArrivalLt(Res(c), Exp(e));
    assert !SeenIn(events, e, c, HOT_WINDOW, lateness);
    assert e in exposures && Eligible(e, c, HOT_WINDOW);
    EngineEqualsOracleIff(exposures, resolved, lateness);
  }

  // ---------- the output depends on the set of rows alone ----------

  lemma SameTable(a: seq<Resolved>, b: seq<Resolved>, f: Resolved -> Attributed, g: Resolved -> Attributed)
    requires DistinctCids(a) && DistinctCids(b) && SameSet(a, b)
    requires forall c :: f(c).res == c && g(c).res == c
    requires forall c :: c in a ==> f(c) == g(c)
    ensures Tabulate(a, f) == Tabulate(b, g)
  {
    hide Tabulate;
    TabulateSorted(a, f);
    TabulateSorted(b, g);
    TabulateIs(a, f);
    TabulateIs(b, g);
    SortedUnique(Tabulate(a, f), Tabulate(b, g), RowLe);
  }

  lemma EngineCandidateSameSet(expA: seq<Exposure>, resA: seq<Resolved>, expB: seq<Exposure>, resB: seq<Resolved>,
                               c: Resolved, lateness: Time)
    requires SameSet(expA, expB) && UniqueExposures(expA)
    requires SameSet(OneRow(resA), OneRow(resB)) && CandidateHouseholds(resA) == CandidateHouseholds(resB)
    requires c in OneRow(resA)
    ensures EngineCandidate(expA, resA, c, lateness) == EngineCandidate(expB, resB, c, lateness)
  {
    hide Stream, OneRow, CandidateHouseholds, EngineCandidate, Credit, ProbedState, SeenTouches, EligibleTouches;
    hide SortedBy, TiesAreEqual;
    var h := c.householdId;
    var p := Position(expA, resA, c, lateness);
    var q := Position(expB, resB, c, lateness);
    var a, b := Stream(expA, OneRow(resA), h), Stream(expB, OneRow(resB), h);
    StreamTies(expA, resA, h);
    StreamTies(expB, resB, h);
    StreamIsSorted(expA, OneRow(resA), h);
    StreamIsSorted(expB, OneRow(resB), h);
    ProbedAreSeen(a, p, HOT_WINDOW, lateness);
    ProbedAreSeen(b, q, HOT_WINDOW, lateness);
    forall m ensures m in a <==> m in b {
      StreamIs(expA, OneRow(resA), h, m);
      StreamIs(expB, OneRow(resB), h, m);
    }
    SeenTouchesSameSet(a, b, c, HOT_WINDOW, lateness);
  }

  lemma SeenTouchesSameSet(a: seq<Event>, b: seq<Event>, c: Resolved, window: Time, lateness: Time)
    requires SameSet(a, b)
    ensures SeenTouches(a, c, window, lateness) == SeenTouches(b, c, window, lateness)
  {
    hide SeenIn, ExposuresOf;
    forall e ensures e in ExposuresOf(a) <==> e in ExposuresOf(b) {
      ExposuresOfIs(a, e);
      ExposuresOfIs(b, e);
    }
    forall e ensures SeenIn(a, e, c, window, lateness) <==> SeenIn(b, e, c, window, lateness) {
      SeenInSameSet(a, b, e, c, window, lateness);
    }
  }

  /** When equal ids carry equal rows, both engines are functions of the two sets of
      rows: order, re-sends and re-orderings of re-sends change nothing. No lateness
      assumption. */
  lemma OutputDependsOnSets(expA: seq<Exposure>, resA: seq<Resolved>, expB: seq<Exposure>, resB: seq<Resolved>,
                            lateness: Time)
    requires SameSet(expA, expB) && UniqueExposures(expA)
    requires SameSet(resA, resB) && OnePerHousehold(resA)
    ensures RunRaises(resA) <==> RunRaises(resB)
    ensures EngineOutput(expA, resA, lateness) == EngineOutput(expB, resB, lateness)
    ensures OracleOutput(expA, resA) == OracleOutput(expB, resB)
  {
    hide OneRow, CandidateHouseholds, EngineCandidate, Tabulate, DistinctCids, EligibleTouches, Credit;
    CollapseDependsOnTheSet(resA, resB);
    OneRowDistinct(resA);
    OneRowDistinct(resB);
    EngineRowKeepsConversion(expA, resA, lateness);
    EngineRowKeepsConversion(expB, resB, lateness);
    OracleRowKeepsConversion(expA, resA);
    OracleRowKeepsConversion(expB, resB);
    forall c | c in OneRow(resA)
      ensures EngineRow(expA, resA, lateness)(c) == EngineRow(expB, resB, lateness)(c)
      ensures OracleRow(expA, resA)(c) == OracleRow(expB, resB)(c)
    {
      EngineCandidateSameSet(expA, resA, expB, resB, c, lateness);
      OracleCandidateSameSet(expA, expB, c);
    }
    SameTable(OneRow(resA), OneRow(resB), EngineRow(expA, resA, lateness), EngineRow(expB, resB, lateness));
    SameTable(OneRow(resA), OneRow(resB), OracleRow(expA, resA), OracleRow(expB, resB));
  }

  lemma OracleCandidateSameSet(expA: seq<Exposure>, expB: seq<Exposure>, c: Resolved)
    requires SameSet(expA, expB)
    ensures EligibleTouches(ExposuresAt(expA, c.householdId), c, HOT_WINDOW)
         == EligibleTouches(ExposuresAt(expB, c.householdId), c, HOT_WINDOW)
  {
    hide ExposuresAt;
    forall e ensures e in ExposuresAt(expA, c.householdId) <==> e in ExposuresAt(expB, c.householdId) {
      ExposuresAtIs(expA, c.householdId, e);
      ExposuresAtIs(expB, c.householdId, e);
    }
    SameTouches(ExposuresAt(expA, c.householdId), ExposuresAt(expB, c.householdId), c, HOT_WINDOW);
  }

  /** Dedup is transparent: with it or without it, both engines return the same rows. */
  lemma DedupIsTransparent(exposures: seq<Exposure>, resolved: seq<Resolved>, lateness: Time)
    requires UniqueExposures(exposures) && OnePerHousehold(resolved)
    ensures EngineOutput(DedupedExposures(exposures), DedupedResolved(resolved), lateness)
         == EngineOutput(exposures, resolved, lateness)
    ensures OracleOutput(DedupedExposures(exposures), DedupedResolved(resolved)) == OracleOutput(exposures, resolved)
    ensures RunRaises(DedupedResolved(resolved)) <==> RunRaises(resolved)
  {
    hide OneRow, Tabulate, RunRaises, EngineRow, OracleRow, KeepFirst;
    KeepFirstLosesNothing(exposures, ExposureKey);
    KeepFirstLosesNothing(resolved, ResolvedKey);
    OutputDependsOnSets(exposures, resolved, DedupedExposures(exposures), DedupedResolved(resolved), lateness);
  }

  /** Determinism: the run is invariant under every permutation of its two inputs. */
  lemma RunIsDeterministic(expA: seq<Exposure>, resA: seq<Resolved>, expB: seq<Exposure>, resB: seq<Resolved>,
                           lateness: Time)
    requires multiset(expA) == multiset(expB) && UniqueExposures(expA)
    requires multiset(resA) == multiset(resB) && OnePerHousehold(resA)
    ensures EngineOutput(expA, resA, lateness) == EngineOutput(expB, resB, lateness)
    ensures OracleOutput(expA, resA) == OracleOutput(expB, resB)
  {
    hide OneRow, Tabulate, RunRaises, EngineRow, OracleRow;
    SameElements(expA, expB);
    SameElements(resA, resB);
    OutputDependsOnSets(expA, resA, expB, resB, lateness);
  }
}
