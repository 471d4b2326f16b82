/** What the watermark and the eviction guarantee: when the streaming join decides as
    if it held every exposure of the household, and what it does when it cannot. */
module Lateness {
  import opened Rows
  import opened Orders
  import opened Leaf
  import opened Collapse
  import opened Engine

  // ---------- which exposures a conversion is scored against ----------

  /** The exposure at position `q` is in the state that the conversion at `p` probes:
      it did not arrive after the release, and it was not evicted before the arrival. */
  predicate SeenAt(es: seq<Event>, q: nat, p: nat, window: Time, lateness: Time)
    requires q < |es| && IsConv(es, p)
  {
    && !(p < q && Reached(es, q, lateness, es[p].EventTime()))
    && !(q < p && Expired(es, p, window, lateness, es[q].EventTime()))
  }

  lemma ReleaseStepMeans(es: seq<Event>, p: nat, lateness: Time)
    requires IsConv(es, p)
    ensures p < ReleaseStep(es, p, lateness) <= |es| + 1
    ensures ReleaseStep(es, p, lateness) <= |es| ==>
        Reached(es, ReleaseStep(es, p, lateness), lateness, es[p].EventTime())
    ensures forall j :: p < j < ReleaseStep(es, p, lateness) ==> !Reached(es, j, lateness, es[p].EventTime())
  {
    FirstReachedMeans(es, p + 1, lateness, es[p].EventTime());
  }

  /** After `k` events, the exposure at an earlier position is still held. */
  lemma RetainedIs(es: seq<Event>, k: nat, window: Time, lateness: Time, e: Exposure)
    requires k <= |es|
    ensures e in Retained(es, k, window, lateness) <==>
            exists q :: 0 <= q < k && es[q] == Exp(e) && !Expired(es, k, window, lateness, e.eventTime)
  {
    if k > 0 { HeldIs(es, k, Watermark(es, k, lateness).value, window, e); }
  }

  /** On the fields of the rows: an exposure is held after `k` events iff it was among them and
      none of them is more than `window + lateness` later than it. */
  lemma RetainedMeaning(es: seq<Event>, k: nat, window: Time, lateness: Time, e: Exposure)
    requires k <= |es|
    ensures e in Retained(es, k, window, lateness) <==>
              && (exists q :: 0 <= q < k && es[q] == Exp(e))
              && forall m :: 0 <= m < k ==>
                   match es[m]
                   case Exp(f) => f.eventTime - lateness <= e.eventTime + window
                   case Res(c) => c.conv.eventTime - lateness <= e.eventTime + window
  {
    RetainedIs(es, k, window, lateness, e);
    if k > 0 {
      WatermarkIs(es, k, lateness);
      assert forall m, f :: 0 <= m < k && es[m] == Exp(f) ==> es[m].EventTime() == f.eventTime;
      assert forall m, c :: 0 <= m < k && es[m] == Res(c) ==> es[m].EventTime() == c.conv.eventTime;
    }
  }

  /** What `evicted` and `final` add up to is the number of exposures consumed. */
  lemma {:induction false} ExposuresCounted(es: seq<Event>, k: nat)
    requires k <= |es|
    ensures ExposureCount(es, k) == |ExposuresOf(es[..k])|
  {
    if k > 0 {
      ExposuresCounted(es, k - 1);
      assert Init(es[..k]) == es[..k - 1] && Last(es[..k]) == es[k - 1];
    } else {
      assert es[..0] == [];
    }
  }

  /** Nothing eligible for a conversion is evicted between its arrival and its release. */
  lemma HeldWhilePending(es: seq<Event>, p: nat, k: nat, window: Time, lateness: Time, e: Exposure)
    requires IsConv(es, p) && p <= k <= |es| && Eligible(e, es[p].conv, window)
    requires p < k ==> !Reached(es, k, lateness, es[p].EventTime())
    ensures Expired(es, k, window, lateness, e.eventTime) <==>
            p == k && Expired(es, p, window, lateness, e.eventTime)
    ensures p < k ==> !Expired(es, p, window, lateness, e.eventTime)
  {
    if 0 < p { WatermarkRises(es, p, k, lateness); }
  }

  lemma SeenIffBeforeRelease(es: seq<Event>, q: nat, p: nat, window: Time, lateness: Time)
    requires q < |es| && es[q].Exp? && IsConv(es, p) && Eligible(es[q].exposure, es[p].conv, window)
    ensures p < ReleaseStep(es, p, lateness) <= |es| + 1
    ensures var k := ReleaseStep(es, p, lateness);
      SeenAt(es, q, p, window, lateness) <==>
      q == k - 1 || (q < k - 1 && !Expired(es, k - 1, window, lateness, es[q].EventTime()))
  {
    var k := ReleaseStep(es, p, lateness);
    ReleaseStepMeans(es, p, lateness);
    HeldWhilePending(es, p, k - 1, window, lateness, es[q].exposure);
    if k <= q { WatermarkRises(es, k, q, lateness); }
  }

  /** The state a conversion probes, among the exposures eligible for it. */
  lemma ProbedIffSeen(es: seq<Event>, p: nat, window: Time, lateness: Time, e: Exposure)
    requires IsConv(es, p) && Eligible(e, es[p].conv, window)
    ensures e in ProbedState(es, p, window, lateness) <==>
            exists q :: 0 <= q < |es| && es[q] == Exp(e) && SeenAt(es, q, p, window, lateness)
  {
    var k := ReleaseStep(es, p, lateness);
    ReleaseStepMeans(es, p, lateness);
    RetainedIs(es, k - 1, window, lateness, e);
    forall q | 0 <= q < |es| && es[q] == Exp(e)
      ensures SeenAt(es, q, p, window, lateness) <==>
              q == k - 1 || (q < k - 1 && !Expired(es, k - 1, window, lateness, e.eventTime))
    {
      SeenIffBeforeRelease(es, q, p, window, lateness);
    }
    if k <= |es| && es[k - 1] == Exp(e) { assert SeenAt(es, k - 1, p, window, lateness); }
  }

  function ExposuresOf(es: seq<Event>): seq<Exposure> {
    if es == [] then []
    else ExposuresOf(Init(es)) + (if Last(es).Exp? then [Last(es).exposure] else [])
  }

  lemma {:induction false} ExposuresOfIs(es: seq<Event>, e: Exposure)
    ensures e in ExposuresOf(es) <==> Exp(e) in es
  {
    if es != [] {
      ExposuresOfIs(Init(es), e);
      assert es == Init(es) + [Last(es)];
    }
  }

  /** The join never credits an exposure the household does not have. */
  lemma ProbedAreExposures(es: seq<Event>, p: nat, window: Time, lateness: Time)
    requires IsConv(es, p)
    ensures EligibleTouches(ProbedState(es, p, window, lateness), es[p].conv, window)
         <= EligibleTouches(ExposuresOf(es), es[p].conv, window)
  {
    var c := es[p].conv;
    forall t | t in EligibleTouches(ProbedState(es, p, window, lateness), c, window)
      ensures t in EligibleTouches(ExposuresOf(es), c, window)
    {
      var e :| e in ProbedState(es, p, window, lateness) && Eligible(e, c, window) && TouchOf(e) == t;
      ProbedIffSeen(es, p, window, lateness, e);
      var q :| 0 <= q < |es| && es[q] == Exp(e);
      assert Exp(e) in es;
      ExposuresOfIs(es, e);
    }
  }

  // ---------- lateness ----------

  /** Nothing arrives before it happens, exposures are at most `lateness` late, and one
      of the two is strict: every event takes some time to arrive, or every exposure is
      less than `lateness` late. */
  ghost predicate ExposuresInTolerance(es: seq<Event>, lateness: Time) {
    && (forall m :: m in es ==> m.EventTime() <= m.IngestTime())
    && (forall m :: m in es && m.Exp? ==> m.IngestTime() - m.EventTime() <= lateness)
    && ((forall m :: m in es ==> m.EventTime() < m.IngestTime()) ||
        (forall m :: m in es && m.Exp? ==> m.IngestTime() - m.EventTime() < lateness))
  }

  predicate ConversionInTolerance(c: Resolved, lateness: Time) {
    c.IngestTime() - c.EventTime() <= lateness
  }

  /** An in-tolerance exposure arrives before the watermark reaches a conversion it
      is eligible for. */
  lemma InToleranceArrivesInTime(es: seq<Event>, q: nat, lateness: Time, t: Time)
    requires SortedBy(es, ArrivalLe) && ExposuresInTolerance(es, lateness)
    requires q < |es| && es[q].Exp? && es[q].EventTime() <= t
    ensures !Reached(es, q, lateness, t)
  {
    forall m | 0 <= m < q ensures es[m].EventTime() - lateness < t {
      assert ArrivalLe(es[m], es[q]);
      assert es[m] in es && es[q] in es;
    }
    if q > 0 { WatermarkIs(es, q, lateness); }
  }

  /** An in-tolerance conversion arrives before anything eligible for it ages out. */
  lemma InToleranceFindsItsExposures(es: seq<Event>, p: nat, window: Time, lateness: Time, t: Time)
    requires SortedBy(es, ArrivalLe) && ExposuresInTolerance(es, lateness)
    requires IsConv(es, p) && ConversionInTolerance(es[p].conv, lateness)
    requires es[p].EventTime() - window <= t
    ensures !Expired(es, p, window, lateness, t)
  {
    forall m | 0 <= m < p ensures es[m].EventTime() - lateness <= t + window {
      assert ArrivalLe(es[m], es[p]);
      assert es[m] in es;
    }
    if p > 0 { WatermarkIs(es, p, lateness); }
  }

  lemma InToleranceProbesEverything(es: seq<Event>, p: nat, window: Time, lateness: Time)
    requires SortedBy(es, ArrivalLe) && ExposuresInTolerance(es, lateness)
    requires IsConv(es, p) && ConversionInTolerance(es[p].conv, lateness)
    ensures EligibleTouches(ProbedState(es, p, window, lateness), es[p].conv, window)
         == EligibleTouches(ExposuresOf(es), es[p].conv, window)
  {
    hide SortedBy, ExposuresInTolerance, ProbedState;
    var c := es[p].conv;
    ProbedAreExposures(es, p, window, lateness);
    forall t | t in EligibleTouches(ExposuresOf(es), c, window)
      ensures t in EligibleTouches(ProbedState(es, p, window, lateness), c, window)
    {
      var e :| e in ExposuresOf(es) && Eligible(e, c, window) && TouchOf(e) == t;
      ExposuresOfIs(es, e);
      var q :| 0 <= q < |es| && es[q] == Exp(e);
      InToleranceArrivesInTime(es, q, lateness, c.EventTime());
      InToleranceFindsItsExposures(es, p, window, lateness, e.eventTime);
      assert SeenAt(es, q, p, window, lateness);
      ProbedIffSeen(es, p, window, lateness, e);
    }
  }

  /** In tolerance, the evicting join decides exactly as it would over every exposure. */
  lemma InToleranceIsExact(es: seq<Event>, p: nat, window: Time, lateness: Time, candidates: map<Id, seq<Id>>)
    requires SortedBy(es, ArrivalLe) && ExposuresInTolerance(es, lateness)
    requires IsConv(es, p) && ConversionInTolerance(es[p].conv, lateness)
    ensures Decision(es, p, window, lateness, candidates)
         == HotDecision(ExposuresOf(es), es[p].conv, window, CandidateSetOf(es[p].conv, candidates))
  {
    hide SortedBy, ExposuresInTolerance, ProbedState, EligibleTouches, Credit;
    InToleranceProbesEverything(es, p, window, lateness);
  }

  /** However late the conversion, what eviction took from it is strictly older than
      everything it is scored against. */
  lemma EvictedAreOlder(es: seq<Event>, p: nat, window: Time, lateness: Time)
    requires SortedBy(es, ArrivalLe) && ExposuresInTolerance(es, lateness) && IsConv(es, p)
    ensures AddsOnlyOlder(EligibleTouches(ProbedState(es, p, window, lateness), es[p].conv, window),
                          EligibleTouches(ExposuresOf(es), es[p].conv, window))
  {
    var c := es[p].conv;
    var small := EligibleTouches(ProbedState(es, p, window, lateness), c, window);
    var big := EligibleTouches(ExposuresOf(es), c, window);
    ProbedAreExposures(es, p, window, lateness);
    forall t, u | t in big - small && u in small ensures t.time < u.time {
      var e :| e in ExposuresOf(es) && Eligible(e, c, window) && TouchOf(e) == t;
      ExposuresOfIs(es, e);
      var q :| 0 <= q < |es| && es[q] == Exp(e);
      InToleranceArrivesInTime(es, q, lateness, c.EventTime());
      ProbedIffSeen(es, p, window, lateness, e);
      assert !SeenAt(es, q, p, window, lateness);
      assert Expired(es, p, window, lateness, e.eventTime);
      var f :| f in ProbedState(es, p, window, lateness) && Eligible(f, c, window) && TouchOf(f) == u;
      LateConversionProbes(es, p, window, lateness, e, f);
    }
  }

  /** Once something eligible has expired, the conversion is released on arrival. */
  lemma LateConversionProbes(es: seq<Event>, p: nat, window: Time, lateness: Time, e: Exposure, f: Exposure)
    requires IsConv(es, p) && Eligible(e, es[p].conv, window)
    requires Expired(es, p, window, lateness, e.eventTime)
    requires f in ProbedState(es, p, window, lateness)
    ensures e.eventTime < f.eventTime
  {
    assert p > 0;
    WatermarkRises(es, p, p + 1, lateness);
    assert Reached(es, p + 1, lateness, es[p].EventTime());
    assert ReleaseStep(es, p, lateness) == p + 1;
    RetainedIs(es, p, window, lateness, f);
  }

  /** Eviction never changes a credit, it only removes it: a certain conversion that
      arrives arbitrarily late gets the exposure that the whole household would give it,
      or is left a state miss. */
  lemma EvictionOnlyRemovesCredit(es: seq<Event>, p: nat, window: Time, lateness: Time, candidates: map<Id, seq<Id>>)
    requires SortedBy(es, ArrivalLe) && ExposuresInTolerance(es, lateness)
    requires IsConv(es, p) && es[p].conv.candidateCount == 1
    ensures var d := Decision(es, p, window, lateness, candidates);
      var full := LastTouch(ExposuresOf(es), es[p].conv, window, []);
      if d.row.attributed then
        && full.row.attributed && d.row.exposureId == full.row.exposureId && d.lastTouchTime == full.lastTouchTime
        && forall id :: id in d.row.assists ==> id in full.row.assists
      else
        d == Unattributed(es[p].conv, []) && d.row.reason == Some(StateMiss)
  {
    var c := es[p].conv;
    var small := EligibleTouches(ProbedState(es, p, window, lateness), c, window);
    var big := EligibleTouches(ExposuresOf(es), c, window);
    EvictedAreOlder(es, p, window, lateness);
    if small != {} {
      LatestIgnoresOlder(small, big);
      assert forall id :: id in IdsOf(small) ==> id in IdsOf(big);
    }
  }

  // ---------- the exact condition, on the order of arrival alone ----------

  predicate ArrivalLt(a: Event, b: Event) { ArrivalLe(a, b) && !ArrivalLe(b, a) }

  /** Read off the input: no event that arrives before the exposure, itself after the
      conversion, is `lateness` past the conversion; and no event that arrives before
      the conversion, itself after the exposure, is past the exposure's expiry. */
  ghost predicate SeenIn(events: seq<Event>, e: Exposure, c: Resolved, window: Time, lateness: Time) {
    && !(ArrivalLt(Res(c), Exp(e)) &&
         exists m :: m in events && ArrivalLt(m, Exp(e)) && m.EventTime() - lateness >= c.EventTime())
    && !(ArrivalLt(Exp(e), Res(c)) &&
         exists m :: m in events && ArrivalLt(m, Res(c)) && m.EventTime() - lateness > e.eventTime + window)
  }

  /** The conversion occurs once in the stream. */
  ghost predicate OnlyAt(es: seq<Event>, p: nat) {
    IsConv(es, p) && forall i :: 0 <= i < |es| && es[i] == es[p] ==> i == p
  }

  /** The first position of an event. */
  function IndexOf(es: seq<Event>, m: Event): (q: nat)
    requires m in es
    ensures q < |es| && es[q] == m && forall j :: 0 <= j < q ==> es[j] != m
  {
    assert es == Init(es) + [Last(es)];
    if m in Init(es) then
      assert forall j :: 0 <= j < |es| - 1 ==> es[j] == Init(es)[j];
      IndexOf(Init(es), m)
    else
      assert forall j :: 0 <= j < |es| - 1 ==> es[j] in Init(es);
      |es| - 1
  }

  /** Sorted, with ties only between equal events: the position order of an event and
      its first occurrence is the arrival order. */
  lemma BeforeFirst(es: seq<Event>, m: nat, q: nat)
    requires SortedBy(es, ArrivalLe) && TiesAreEqual(es, ArrivalLe)
    requires m < q < |es| && forall j :: 0 <= j < q ==> es[j] != es[q]
    ensures ArrivalLt(es[m], es[q])
  {
    assert es[m] in es && es[q] in es;
  }

  lemma StrictlyBefore(es: seq<Event>, m: nat, q: nat)
    requires SortedBy(es, ArrivalLe) && m < |es| && q < |es| && ArrivalLt(es[m], es[q])
    ensures m < q
  {
    assert forall i, j :: 0 <= i < j < |es| ==> ArrivalLe(es[i], es[j]);
  }

  lemma SeenAtImpliesSeenIn(es: seq<Event>, q: nat, p: nat, window: Time, lateness: Time)
    requires SortedBy(es, ArrivalLe)
    requires q < |es| && es[q].Exp? && IsConv(es, p) && SeenAt(es, q, p, window, lateness)
    ensures SeenIn(es, es[q].exposure, es[p].conv, window, lateness)
  {
    if ArrivalLt(es[p], es[q]) {
      StrictlyBefore(es, p, q);
      forall m | m in es && ArrivalLt(m, es[q]) ensures m.EventTime() - lateness < es[p].EventTime() {
        var i :| 0 <= i < |es| && es[i] == m;
        StrictlyBefore(es, i, q);
        WatermarkIs(es, q, lateness);
      }
    }
    if ArrivalLt(es[q], es[p]) {
      StrictlyBefore(es, q, p);
      forall m | m in es && ArrivalLt(m, es[p]) ensures m.EventTime() - lateness <= es[q].EventTime() + window {
        var i :| 0 <= i < |es| && es[i] == m;
        StrictlyBefore(es, i, p);
        WatermarkIs(es, p, lateness);
      }
    }
  }

  lemma SeenInImpliesSeenAt(es: seq<Event>, q: nat, p: nat, window: Time, lateness: Time)
    requires SortedBy(es, ArrivalLe) && TiesAreEqual(es, ArrivalLe) && OnlyAt(es, p)
    requires q < |es| && es[q].Exp? && forall j :: 0 <= j < q ==> es[j] != es[q]
    requires SeenIn(es, es[q].exposure, es[p].conv, window, lateness)
    ensures SeenAt(es, q, p, window, lateness)
  {
    if p < q {
      BeforeFirst(es, p, q);
      forall m | 0 <= m < q ensures es[m].EventTime() - lateness < es[p].EventTime() {
        BeforeFirst(es, m, q);
        assert es[m] in es;
      }
      WatermarkIs(es, q, lateness);
    }
    if q < p {
      BeforeFirst(es, q, p);
      forall m | 0 <= m < p ensures es[m].EventTime() - lateness <= es[q].EventTime() + window {
        BeforeFirst(es, m, p);
        assert es[m] in es;
      }
      WatermarkIs(es, p, lateness);
    }
  }

  /** The touches that count for `c`, as a function of the set of events alone. */
  ghost function SeenTouches(events: seq<Event>, c: Resolved, window: Time, lateness: Time): set<Touch> {
    set e | e in ExposuresOf(events) && Eligible(e, c, window) && SeenIn(events, e, c, window, lateness) :: TouchOf(e)
  }

  lemma ProbedAreSeen(es: seq<Event>, p: nat, window: Time, lateness: Time)
    requires SortedBy(es, ArrivalLe) && TiesAreEqual(es, ArrivalLe) && OnlyAt(es, p)
    ensures EligibleTouches(ProbedState(es, p, window, lateness), es[p].conv, window)
         == SeenTouches(es, es[p].conv, window, lateness)
  {
    var c := es[p].conv;
    forall e | Eligible(e, c, window)
      ensures e in ProbedState(es, p, window, lateness) <==>
              e in ExposuresOf(es) && SeenIn(es, e, c, window, lateness)
    {
      ProbedIffSeen(es, p, window, lateness, e);
      ExposuresOfIs(es, e);
      if q :| 0 <= q < |es| && es[q] == Exp(e) && SeenAt(es, q, p, window, lateness) {
        assert Exp(e) in es;
        SeenAtImpliesSeenIn(es, q, p, window, lateness);
      }
      if Exp(e) in es && SeenIn(es, e, c, window, lateness) {
        var q := IndexOf(es, Exp(e));
        SeenInImpliesSeenAt(es, q, p, window, lateness);
      }
    }
    var probed := ProbedState(es, p, window, lateness);
    assert forall t :: t in EligibleTouches(probed, c, window) ==> t in SeenTouches(es, c, window, lateness);
    assert forall t :: t in SeenTouches(es, c, window, lateness) ==> t in EligibleTouches(probed, c, window);
  }

  /** Equal ids carry equal rows. */
  ghost predicate UniqueExposures(exposures: seq<Exposure>) {
    forall e, f :: e in exposures && f in exposures && e.exposureId == f.exposureId ==> e == f
  }

  /** The exact condition: the join gives a certain conversion the row that the whole
      household would give it if and only if every eligible exposure is seen. */
  lemma ExactIffSeen(es: seq<Event>, p: nat, window: Time, lateness: Time, candidates: map<Id, seq<Id>>)
    requires SortedBy(es, ArrivalLe) && TiesAreEqual(es, ArrivalLe) && OnlyAt(es, p)
    requires IsConv(es, p) && es[p].conv.candidateCount == 1 && UniqueExposures(ExposuresOf(es))
    ensures Decision(es, p, window, lateness, candidates).row == LastTouch(ExposuresOf(es), es[p].conv, window, []).row
       <==> forall e :: e in ExposuresOf(es) && Eligible(e, es[p].conv, window) ==>
                        SeenIn(es, e, es[p].conv, window, lateness)
  {
    hide SortedBy, TiesAreEqual, OnlyAt, ProbedState, SeenIn;
    var c := es[p].conv;
    var small, big := SeenTouches(es, c, window, lateness), EligibleTouches(ExposuresOf(es), c, window);
    ProbedAreSeen(es, p, window, lateness);
    assert Decision(es, p, window, lateness, candidates) == Credit(small, c, []);
    if Credit(small, c, []).row == Credit(big, c, []).row {
      SameCreditSameIds(small, big, c);
      forall e | e in ExposuresOf(es) && Eligible(e, c, window) ensures SeenIn(es, e, c, window, lateness) {
        assert TouchOf(e) in big && e.exposureId in IdsOf(big);
        var t :| t in small && t.id == e.exposureId;
        var f :| f in ExposuresOf(es) && Eligible(f, c, window) && SeenIn(es, f, c, window, lateness) &&
          TouchOf(f) == t;
        assert f == e;
      }
    }
    if forall e :: e in ExposuresOf(es) && Eligible(e, c, window) ==> SeenIn(es, e, c, window, lateness) {
      assert small == big;
    }
  }

  lemma SameCreditSameIds(a: set<Touch>, b: set<Touch>, c: Resolved)
    requires Credit(a, c, []).row == Credit(b, c, []).row
    ensures IdsOf(a) == IdsOf(b)
  {
    if a != {} && b != {} {
      var wa, wb := Latest(a), Latest(b);
      assert wa.id in IdsOf(a) && wb.id in IdsOf(b);
      assert Credit(a, c, []).row.exposureId == Some(wa.id) && Credit(b, c, []).row.exposureId == Some(wb.id);
      var ra, rb := SortedIds(IdsOf(a) - {wa.id}), SortedIds(IdsOf(b) - {wb.id});
      assert ra == rb;
      forall x ensures x in IdsOf(a) <==> x in IdsOf(b) {
        assert x in ra <==> x in IdsOf(a) - {wa.id};
        assert x in rb <==> x in IdsOf(b) - {wb.id};
      }
    }
  }

  /** Non-strict tolerance is not enough: here an exposure and the event that releases
      the conversion share an ingest time, and the exposure sorts second. */
  lemma StrictnessIsNeeded() returns (es: seq<Event>, lateness: Time)
    ensures SortedBy(es, ArrivalLe)
    ensures forall m :: m in es ==> 0 <= m.IngestTime() - m.EventTime() <= lateness
    ensures |es| == 3 && IsConv(es, 0) && es[0].conv.candidateCount == 1
    ensures !Decision(es, 0, HOT_WINDOW, lateness, map[]).row.attributed
    ensures LastTouch(ExposuresOf(es), es[0].conv, HOT_WINDOW, []).row.attributed
  {
    lateness := 10;
    var c := Resolved(Conversion(1, 90, 95, 0, 0, Purchase, 0, None), 7, ByDevice, false, 1);
    var m := Exposure(1, 100, 100, 0, 7, 0, 0, 0, 0);
    var e := Exposure(2, 90, 100, 0, 7, 0, 0, 0, 0);
    es := [Res(c), Exp(m), Exp(e)];
    assert es[2] == Exp(e);
    ExposuresOfIs(es, e);
    assert e in ExposuresOf(es) && Eligible(e, c, HOT_WINDOW);
    assert TouchOf(e) in EligibleTouches(ExposuresOf(es), c, HOT_WINDOW);
    assert Watermark(es, 1, lateness) == Some(80) && Watermark(es, 2, lateness) == Some(90);
    FirstReachedIs(es, 1, 2, lateness, 90);
    forall x | x in ProbedState(es, 0, HOT_WINDOW, lateness) ensures !Eligible(x, c, HOT_WINDOW) {
      RetainedIs(es, 1, HOT_WINDOW, lateness, x);
    }
    assert EligibleTouches(ProbedState(es, 0, HOT_WINDOW, lateness), c, HOT_WINDOW) == {};
  }

  // ---------- how much state the join holds ----------

  /** The exposures among the first `k` events that aired in `[lo, hi]`. */
  function AiredBetween(es: seq<Event>, k: nat, lo: Time, hi: Time): nat
    requires k <= |es|
  {
    if k == 0 then 0
    else AiredBetween(es, k - 1, lo, hi) + (if es[k - 1].Exp? && lo <= es[k - 1].EventTime() <= hi then 1 else 0)
  }

  lemma {:induction false} HeldCount(es: seq<Event>, k: nat, watermark: Time, window: Time, hi: Time)
    requires k <= |es| && forall m :: 0 <= m < k ==> es[m].EventTime() <= hi
    ensures |StillHeld(es, k, watermark, window)| == AiredBetween(es, k, watermark - window, hi)
  {
    if k > 0 { HeldCount(es, k - 1, watermark, window, hi); }
  }

  lemma {:induction false} AiredGrows(es: seq<Event>, j: nat, k: nat, lo: Time, hi: Time)
    requires j <= k <= |es|
    ensures AiredBetween(es, j, lo, hi) <= AiredBetween(es, k, lo, hi)
  {
    if j < k { AiredGrows(es, j, k - 1, lo, hi); }
  }

  /** After every event the state is exactly the exposures so far that aired between
      `window` behind the watermark and `lateness` ahead of it, and the conversions
      still pending are strictly ahead of the watermark, by at most `lateness`. */
  lemma StateBound(es: seq<Event>, k: nat, waiting: seq<nat>, window: Time, lateness: Time)
    requires 0 < k <= |es| && Unreached(es, k, k, waiting, lateness)
    ensures var w := Watermark(es, k, lateness).value;
      && (forall e :: e in Retained(es, k, window, lateness) ==> w - window <= e.eventTime <= w + lateness)
      && |Retained(es, k, window, lateness)| == AiredBetween(es, k, w - window, w + lateness)
      && (forall i :: 0 <= i < |waiting| ==> w < es[waiting[i]].EventTime() <= w + lateness)
  {
    var w := Watermark(es, k, lateness).value;
    WatermarkIs(es, k, lateness);
    HeldCount(es, k, w, window, w + lateness);
    forall e | e in Retained(es, k, window, lateness) ensures w - window <= e.eventTime <= w + lateness {
      RetainedIs(es, k, window, lateness, e);
      var q :| 0 <= q < k && es[q] == Exp(e);
    }
    forall i | 0 <= i < |waiting| ensures w < es[waiting[i]].EventTime() <= w + lateness {
      assert waiting[i] in waiting;
    }
  }

  /** With no assumption on lateness, the high-water mark of the state is at most the
      largest number of exposures that air in any interval of length window + lateness. */
  lemma {:induction false} PeakBound(es: seq<Event>, k: nat, window: Time, lateness: Time, most: nat)
    requires k <= |es|
    requires forall lo, hi :: hi == lo + window + lateness ==> AiredBetween(es, |es|, lo, hi) <= most
    ensures Peak(es, k, window, lateness) <= most
  {
    if k > 0 {
      PeakBound(es, k - 1, window, lateness, most);
      var w := Watermark(es, k, lateness).value;
      WatermarkIs(es, k, lateness);
      HeldCount(es, k, w, window, w + lateness);
      var lo := w - window;
      AiredGrows(es, k, |es|, lo, lo + window + lateness);
    }
  }
}
