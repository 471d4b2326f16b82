/** The streaming join of one household (streaming/attribute.py:213-314): events in
    arrival order, a watermark that releases pending conversions and evicts exposures. */
module Engine {
  import opened Rows
  import opened Orders
  import opened Leaf
  import opened Collapse

  datatype Event = Exp(exposure: Exposure) | Res(conv: Resolved)
  {
    function EventTime(): Time { if Exp? then exposure.eventTime else conv.EventTime() }
    function IngestTime(): Time { if Exp? then exposure.ingestTime else conv.IngestTime() }
    /** The kind tag as a rank: "exp" sorts before "res". */
    function Kind(): int { if Exp? then 0 else 1 }
    function Ident(): Id { if Exp? then exposure.exposureId else conv.Cid() }
  }

  /** Arrival order: ingest time, then kind, then id. */
  predicate ArrivalLe(a: Event, b: Event) {
    || a.IngestTime() < b.IngestTime()
    || (a.IngestTime() == b.IngestTime() &&
        (a.Kind() < b.Kind() || (a.Kind() == b.Kind() && a.Ident() <= b.Ident())))
  }

  function Arrival(events: seq<Event>): seq<Event> { Sort(events, ArrivalLe) }

  function EventTimeWatermark(watermark: Option<Time>, eventTime: Time, lateness: Time): Time {
    var candidate := eventTime - lateness;
    if watermark.None? || candidate > watermark.value then candidate else watermark.value
  }

  datatype StreamState = StreamState(peak: nat, evicted: nat, final: nat)
  datatype StreamResult = StreamResult(candidates: seq<Candidate>, state: StreamState)

  // ---------- the list comprehensions of the loop body ----------

  function Keep(exposures: seq<Exposure>, watermark: Time, window: Time): seq<Exposure> {
    if exposures == [] then []
    else
      var e := Last(exposures);
      Keep(Init(exposures), watermark, window) + (if watermark <= e.eventTime + window then [e] else [])
  }

  function Released(pending: seq<Resolved>, watermark: Time): seq<Resolved> {
    if pending == [] then []
    else
      Released(Init(pending), watermark) + (if Last(pending).EventTime() <= watermark then [Last(pending)] else [])
  }

  function Waiting(pending: seq<Resolved>, watermark: Time): seq<Resolved> {
    if pending == [] then []
    else
      Waiting(Init(pending), watermark) + (if Last(pending).EventTime() > watermark then [Last(pending)] else [])
  }

  // ---------- the state after `k` events, in closed form ----------

  function Watermark(es: seq<Event>, k: nat, lateness: Time): Option<Time>
    requires k <= |es|
  {
    if k == 0 then None
    else Some(EventTimeWatermark(Watermark(es, k - 1, lateness), es[k - 1].EventTime(), lateness))
  }

  /** After `k` events the watermark is at or past `t`. */
  predicate Reached(es: seq<Event>, k: nat, lateness: Time, t: Time)
    requires k <= |es|
  {
    var w := Watermark(es, k, lateness);
    w.Some? && t <= w.value
  }

  /** After `k` events an exposure of event time `t` has aged out. */
  predicate Expired(es: seq<Event>, k: nat, window: Time, lateness: Time, t: Time)
    requires k <= |es|
  {
    var w := Watermark(es, k, lateness);
    w.Some? && w.value > t + window
  }

  /** The exposures among the first `k` events that survive `watermark`. */
  function StillHeld(es: seq<Event>, k: nat, watermark: Time, window: Time): seq<Exposure>
    requires k <= |es|
  {
    if k == 0 then []
    else
      StillHeld(es, k - 1, watermark, window) +
      (if es[k - 1].Exp? && watermark <= es[k - 1].EventTime() + window then [es[k - 1].exposure] else [])
  }

  function Retained(es: seq<Event>, k: nat, window: Time, lateness: Time): seq<Exposure>
    requires k <= |es|
  {
    if k == 0 then [] else StillHeld(es, k, Watermark(es, k, lateness).value, window)
  }

  /** What event `k - 1` finds in state: it is buffered before anything is evicted. */
  function Visible(es: seq<Event>, k: nat, window: Time, lateness: Time): seq<Exposure>
    requires 0 < k <= |es|
  {
    Retained(es, k - 1, window, lateness) + (if es[k - 1].Exp? then [es[k - 1].exposure] else [])
  }

  /** The first `j >= k` at which the watermark is at `t`, or `|es| + 1` at end of input. */
  function FirstReached(es: seq<Event>, k: nat, lateness: Time, t: Time): nat
    requires k <= |es| + 1
    decreases |es| + 1 - k
  {
    if k == |es| + 1 || Reached(es, k, lateness, t) then k else FirstReached(es, k + 1, lateness, t)
  }

  predicate IsConv(es: seq<Event>, p: nat) { p < |es| && es[p].Res? }

  /** The number of events processed when the conversion at position `p` is released. */
  function ReleaseStep(es: seq<Event>, p: nat, lateness: Time): nat
    requires IsConv(es, p)
  {
    FirstReached(es, p + 1, lateness, es[p].EventTime())
  }

  /** The exposures that the conversion at position `p` is scored against. */
  function ProbedState(es: seq<Event>, p: nat, window: Time, lateness: Time): seq<Exposure>
    requires IsConv(es, p)
  {
    var k := ReleaseStep(es, p, lateness);
    if 0 < k <= |es| then Visible(es, k, window, lateness) else Retained(es, |es|, window, lateness)
  }

  function Decision(es: seq<Event>, p: nat, window: Time, lateness: Time, candidates: map<Id, seq<Id>>): Candidate
    requires IsConv(es, p)
  {
    HotDecision(ProbedState(es, p, window, lateness), es[p].conv, window, CandidateSetOf(es[p].conv, candidates))
  }

  function ExposureCount(es: seq<Event>, k: nat): nat
    requires k <= |es|
  {
    if k == 0 then 0 else ExposureCount(es, k - 1) + (if es[k - 1].Exp? then 1 else 0)
  }

  function Peak(es: seq<Event>, k: nat, window: Time, lateness: Time): nat
    requires k <= |es|
  {
    if k == 0 then 0
    else
      var before, now := Peak(es, k - 1, window, lateness), |Retained(es, k, window, lateness)|;
      if now > before then now else before
  }

  // ---------- facts about the closed form ----------

  lemma {:induction false} WatermarkIs(es: seq<Event>, k: nat, lateness: Time)
    requires 0 < k <= |es|
    ensures exists m :: 0 <= m < k && es[m].EventTime() - lateness == Watermark(es, k, lateness).value
    ensures forall m :: 0 <= m < k ==> es[m].EventTime() - lateness <= Watermark(es, k, lateness).value
  {
    if k == 1 {
      assert Watermark(es, 0, lateness) == None;
      assert es[0].EventTime() - lateness == Watermark(es, k, lateness).value;
    } else {
      WatermarkIs(es, k - 1, lateness);
      var m :| 0 <= m < k - 1 && es[m].EventTime() - lateness == Watermark(es, k - 1, lateness).value;
      var top := if es[k - 1].EventTime() > es[m].EventTime() then k - 1 else m;
      assert es[top].EventTime() - lateness == Watermark(es, k, lateness).value;
    }
  }

  /** On the fields of the rows: the watermark is the latest event time so far, less the
      allowed lateness. */
  lemma WatermarkMeaning(es: seq<Event>, k: nat, lateness: Time)
    requires 0 < k <= |es|
    ensures forall e, m :: 0 <= m < k && es[m] == Exp(e) ==> e.eventTime - lateness <= Watermark(es, k, lateness).value
    ensures forall c, m :: 0 <= m < k && es[m] == Res(c) ==>
              c.conv.eventTime - lateness <= Watermark(es, k, lateness).value
    ensures exists m :: 0 <= m < k &&
              match es[m]
              case Exp(e) => e.eventTime - lateness == Watermark(es, k, lateness).value
              case Res(c) => c.conv.eventTime - lateness == Watermark(es, k, lateness).value
  {
    WatermarkIs(es, k, lateness);
    var m :| 0 <= m < k && es[m].EventTime() - lateness == Watermark(es, k, lateness).value;
    match es[m]
    case Exp(e) => assert e.eventTime - lateness == Watermark(es, k, lateness).value;
    case Res(c) => assert c.conv.eventTime - lateness == Watermark(es, k, lateness).value;
  }

  lemma {:induction false} WatermarkRises(es: seq<Event>, j: nat, k: nat, lateness: Time)
    requires 0 < j <= k <= |es|
    ensures Watermark(es, j, lateness).value <= Watermark(es, k, lateness).value
  {
    if j < k { WatermarkRises(es, j, k - 1, lateness); }
  }

  lemma {:induction false} KeepHeld(es: seq<Event>, k: nat, w1: Time, w2: Time, window: Time)
    requires k <= |es| && w1 <= w2
    ensures Keep(StillHeld(es, k, w1, window), w2, window) == StillHeld(es, k, w2, window)
  {
    if k > 0 {
      KeepHeld(es, k - 1, w1, w2, window);
      var s := StillHeld(es, k - 1, w1, window);
      if es[k - 1].Exp? {
        var e := es[k - 1].exposure;
        assert Init(s + [e]) == s && Last(s + [e]) == e;
      }
      assert s + [] == s;
    }
  }

  /** One tick: buffer event `k`, then evict. */
  lemma EvictionStep(es: seq<Event>, k: nat, window: Time, lateness: Time)
    requires k < |es|
    ensures Keep(Visible(es, k + 1, window, lateness), Watermark(es, k + 1, lateness).value, window)
         == Retained(es, k + 1, window, lateness)
  {
    var w := Watermark(es, k + 1, lateness).value;
    var s := Retained(es, k, window, lateness);
    if k > 0 {
      WatermarkRises(es, k, k + 1, lateness);
      KeepHeld(es, k, Watermark(es, k, lateness).value, w, window);
    }
    assert Keep(s, w, window) == StillHeld(es, k, w, window);
    if es[k].Exp? {
      var e := es[k].exposure;
      assert Init(s + [e]) == s && Last(s + [e]) == e;
    }
    assert s + [] == s;
  }

  lemma {:induction false} FirstReachedIs(es: seq<Event>, from: nat, k: nat, lateness: Time, t: Time)
    requires from <= k <= |es| + 1
    requires k <= |es| ==> Reached(es, k, lateness, t)
    requires from < k ==> !Reached(es, k - 1, lateness, t)
    ensures FirstReached(es, from, lateness, t) == k
    decreases k - from
  {
    if from < k {
      if from < k - 1 && 0 < from { WatermarkRises(es, from, k - 1, lateness); }
      assert !Reached(es, from, lateness, t);
      FirstReachedIs(es, from + 1, k, lateness, t);
    }
  }

  lemma {:induction false} FirstReachedMeans(es: seq<Event>, from: nat, lateness: Time, t: Time)
    requires from <= |es| + 1
    ensures var k := FirstReached(es, from, lateness, t);
      && from <= k <= |es| + 1
      && (k <= |es| ==> Reached(es, k, lateness, t))
      && (forall j :: from <= j < k ==> !Reached(es, j, lateness, t))
    decreases |es| + 1 - from
  {
    if from <= |es| && !Reached(es, from, lateness, t) {
      FirstReachedMeans(es, from + 1, lateness, t);
    }
  }

  lemma {:induction false} HeldIs(es: seq<Event>, k: nat, watermark: Time, window: Time, e: Exposure)
    requires k <= |es|
    ensures e in StillHeld(es, k, watermark, window) <==>
            exists q :: 0 <= q < k && es[q] == Exp(e) && watermark <= e.eventTime + window
  {
    if k > 0 { HeldIs(es, k - 1, watermark, window, e); }
  }

  /** The peak is the largest size that the state had after any event. */
  lemma {:induction false} PeakIs(es: seq<Event>, k: nat, window: Time, lateness: Time)
    requires k <= |es|
    ensures forall j :: 0 <= j <= k ==> |Retained(es, j, window, lateness)| <= Peak(es, k, window, lateness)
    ensures exists j :: 0 <= j <= k && |Retained(es, j, window, lateness)| == Peak(es, k, window, lateness)
  {
    hide Retained;
    if k == 0 {
      assert |Retained(es, 0, window, lateness)| == 0 by { NothingRetained(es, window, lateness); }
    } else {
      PeakIs(es, k - 1, window, lateness);
      var j :| 0 <= j <= k - 1 && |Retained(es, j, window, lateness)| == Peak(es, k - 1, window, lateness);
      var top := if |Retained(es, k, window, lateness)| > |Retained(es, j, window, lateness)| then k else j;
      assert |Retained(es, top, window, lateness)| == Peak(es, k, window, lateness);
    }
  }

  lemma NothingRetained(es: seq<Event>, window: Time, lateness: Time)
    ensures Retained(es, 0, window, lateness) == []
  {
  }

  // ---------- positions of conversions ----------

  ghost predicate ConvPositions(es: seq<Event>, ps: seq<nat>) {
    forall i :: 0 <= i < |ps| ==> IsConv(es, ps[i])
  }

  ghost function Convs(es: seq<Event>, ps: seq<nat>): (cs: seq<Resolved>)
    requires ConvPositions(es, ps)
    ensures |cs| == |ps| && forall i :: 0 <= i < |ps| ==> cs[i] == es[ps[i]].conv
  {
    if ps == [] then [] else Convs(es, Init(ps)) + [es[Last(ps)].conv]
  }

  predicate Due(es: seq<Event>, p: nat, watermark: Time)
    requires IsConv(es, p)
  {
    es[p].EventTime() <= watermark
  }

  /** Split positions as `Released` and `Waiting` split conversions. */
  ghost function Select(es: seq<Event>, ps: seq<nat>, watermark: Time, due: bool): (r: seq<nat>)
    requires ConvPositions(es, ps)
    ensures ConvPositions(es, r)
  {
    if ps == [] then []
    else
      Select(es, Init(ps), watermark, due) + (if Due(es, Last(ps), watermark) == due then [Last(ps)] else [])
  }

  lemma {:induction false} SelectIs(es: seq<Event>, ps: seq<nat>, watermark: Time, due: bool)
    requires ConvPositions(es, ps)
    ensures forall p: nat :: p in Select(es, ps, watermark, due) <==>
                             p in ps && IsConv(es, p) && Due(es, p, watermark) == due
    ensures Ascending(ps) ==> Ascending(Select(es, ps, watermark, due))
  {
    if ps != [] {
      SelectIs(es, Init(ps), watermark, due);
      assert ps == Init(ps) + [Last(ps)];
      var prev := Select(es, Init(ps), watermark, due);
      if Ascending(ps) {
        forall i | 0 <= i < |prev| ensures prev[i] < Last(ps) { assert prev[i] in prev; }
      }
    }
  }

  lemma {:induction false} ReleasedMatches(es: seq<Event>, ps: seq<nat>, watermark: Time)
    requires ConvPositions(es, ps)
    ensures Released(Convs(es, ps), watermark) == Convs(es, Select(es, ps, watermark, true))
  {
    if ps != [] {
      ReleasedMatches(es, Init(ps), watermark);
      var prev, last := Select(es, Init(ps), watermark, true), Last(ps);
      assert Init(Convs(es, ps)) == Convs(es, Init(ps));
      assert Init(prev + [last]) == prev && prev + [] == prev;
      assert Convs(es, prev) + [] == Convs(es, prev);
    }
  }

  lemma {:induction false} WaitingMatches(es: seq<Event>, ps: seq<nat>, watermark: Time)
    requires ConvPositions(es, ps)
    ensures Waiting(Convs(es, ps), watermark) == Convs(es, Select(es, ps, watermark, false))
  {
    if ps != [] {
      WaitingMatches(es, Init(ps), watermark);
      var prev, last := Select(es, Init(ps), watermark, false), Last(ps);
      assert Init(Convs(es, ps)) == Convs(es, Init(ps));
      assert Init(prev + [last]) == prev && prev + [] == prev;
      assert Convs(es, prev) + [] == Convs(es, prev);
    }
  }

  // ---------- the loop ----------

  /** Release order: by release step, then by arrival. */
  ghost predicate ReleaseOrdered(es: seq<Event>, order: seq<nat>, lateness: Time) {
    && ConvPositions(es, order)
    && forall i, j :: 0 <= i < j < |order| ==> ReleasedBefore(es, order[i], order[j], lateness)
  }

  predicate ReleasedBefore(es: seq<Event>, p: nat, q: nat, lateness: Time)
    requires IsConv(es, p) && IsConv(es, q)
  {
    var a, b := ReleaseStep(es, p, lateness), ReleaseStep(es, q, lateness);
    a < b || (a == b && p < q)
  }

  ghost predicate Scores(es: seq<Event>, out: seq<Candidate>, order: seq<nat>, window: Time, lateness: Time,
                         candidates: map<Id, seq<Id>>)
    requires ConvPositions(es, order)
  {
    && |out| == |order|
    && forall i :: 0 <= i < |out| ==> out[i] == Decision(es, order[i], window, lateness, candidates)
  }

  /** `order` lists every conversion of the stream once, in release order. */
  ghost predicate EveryConversionOnce(es: seq<Event>, order: seq<nat>, lateness: Time) {
    && ReleaseOrdered(es, order, lateness)
    && forall p: nat :: p in order <==> IsConv(es, p)
  }

  ghost predicate FinalState(es: seq<Event>, state: StreamState, window: Time, lateness: Time) {
    && state.peak == Peak(es, |es|, window, lateness)
    && state.final == |Retained(es, |es|, window, lateness)|
    && state.evicted + state.final == ExposureCount(es, |es|)
  }

  /** After `k` events, exactly the conversions the watermark has reached are out. */
  ghost predicate Progress(es: seq<Event>, k: nat, order: seq<nat>, lateness: Time)
    requires k <= |es|
  {
    && ReleaseOrdered(es, order, lateness)
    && (forall p: nat :: p in order <==> p < k && IsConv(es, p) && Reached(es, k, lateness, es[p].EventTime()))
    && (forall p: nat :: p in order ==> ReleaseStep(es, p, lateness) <= k)
  }

  lemma ArrivalSorts(events: seq<Event>)
    ensures TotalPreorder(ArrivalLe)
    ensures SortedBy(Arrival(events), ArrivalLe)
  {
    SortSorts(events, ArrivalLe);
  }

  /** Arrival order on the fields of the rows: by ingest time; at one time exposures before
      conversions, and either by id. */
  lemma ArrivalMeaning(events: seq<Event>, p: nat, q: nat)
    requires p < q < |Arrival(events)|
    ensures multiset(Arrival(events)) == multiset(events)
    ensures match (Arrival(events)[p], Arrival(events)[q])
            case (Exp(e), Exp(f)) =>
              e.ingestTime < f.ingestTime || (e.ingestTime == f.ingestTime && e.exposureId <= f.exposureId)
            case (Exp(e), Res(d)) => e.ingestTime <= d.conv.ingestTime
            case (Res(c), Exp(f)) => c.conv.ingestTime < f.ingestTime
            case (Res(c), Res(d)) =>
              c.conv.ingestTime < d.conv.ingestTime ||
              (c.conv.ingestTime == d.conv.ingestTime && c.conv.conversionId <= d.conv.conversionId)
  {
    ArrivalSorts(events);
    assert ArrivalLe(Arrival(events)[p], Arrival(events)[q]);
  }

  lemma ArrivalSameSet(events: seq<Event>)
    ensures SameSet(Arrival(events), events)
  {
    SameElements(Arrival(events), events);
  }

  lemma {:induction false} NoneDueAllWait(pending: seq<Resolved>, watermark: Time)
    requires Released(pending, watermark) == []
    ensures Waiting(pending, watermark) == pending
  {
    if pending != [] {
      NoneDueAllWait(Init(pending), watermark);
      assert pending == Init(pending) + [Last(pending)];
    }
  }

  /** The positions that event `k` makes pending. */
  ghost function Arrived(es: seq<Event>, waiting: seq<nat>, k: nat): seq<nat>
    requires k < |es|
  {
    if es[k].Res? then waiting + [k] else waiting
  }

  lemma ArrivedPositions(es: seq<Event>, k: nat, waiting: seq<nat>)
    requires k < |es| && ConvPositions(es, waiting) && Ascending(waiting)
    requires forall i :: 0 <= i < |waiting| ==> waiting[i] < k
    ensures ConvPositions(es, Arrived(es, waiting, k)) && Ascending(Arrived(es, waiting, k))
  {
  }

  lemma ArrivedConvs(es: seq<Event>, k: nat, waiting: seq<nat>)
    requires k < |es| && ConvPositions(es, waiting) && ConvPositions(es, Arrived(es, waiting, k))
    ensures Convs(es, Arrived(es, waiting, k)) == Convs(es, waiting) + (if es[k].Res? then [es[k].conv] else [])
  {
    var more := if es[k].Res? then [es[k].conv] else [];
    assert Convs(es, Arrived(es, waiting, k)) == Convs(es, waiting) + more;
  }

  /** The conversions released by event `k`, and those released by the end of input,
      are scored against their probed state. */
  lemma ReleasedNow(es: seq<Event>, p: nat, k: nat, window: Time, lateness: Time)
    requires IsConv(es, p) && p <= k <= |es|
    requires p < k ==> !Reached(es, k, lateness, es[p].EventTime())
    requires k < |es| ==> Reached(es, k + 1, lateness, es[p].EventTime())
    ensures ReleaseStep(es, p, lateness) == k + 1
    ensures ProbedState(es, p, window, lateness)
         == if k < |es| then Visible(es, k + 1, window, lateness) else Retained(es, |es|, window, lateness)
  {
    FirstReachedIs(es, p + 1, k + 1, lateness, es[p].EventTime());
  }

  /** Appending the newly released conversions, in arrival order, keeps release order. */
  lemma OrderGrows(es: seq<Event>, k: nat, order: seq<nat>, rel: seq<nat>, lateness: Time)
    requires k <= |es| && ReleaseOrdered(es, order, lateness)
    requires forall p: nat :: p in order ==> IsConv(es, p) && ReleaseStep(es, p, lateness) <= k
    requires ConvPositions(es, rel) && Ascending(rel)
    requires forall p: nat :: p in rel ==> IsConv(es, p) && ReleaseStep(es, p, lateness) == k + 1
    ensures ReleaseOrdered(es, order + rel, lateness)
  {
    var o := order + rel;
    forall i, j | 0 <= i < j < |o| ensures ReleasedBefore(es, o[i], o[j], lateness) {
      if j < |order| {
      } else {
        assert o[j] == rel[j - |order|] && o[j] in rel;
        if i < |order| { assert o[i] in order; } else { assert o[i] == rel[i - |order|] && o[i] in rel; }
      }
    }
  }

  lemma ScoresGrow(es: seq<Event>, out: seq<Candidate>, order: seq<nat>, scored: seq<Candidate>, rel: seq<nat>,
                   window: Time, lateness: Time, candidates: map<Id, seq<Id>>)
    requires ConvPositions(es, order) && Scores(es, out, order, window, lateness, candidates)
    requires ConvPositions(es, rel) && Scores(es, scored, rel, window, lateness, candidates)
    ensures ConvPositions(es, order + rel) && Scores(es, out + scored, order + rel, window, lateness, candidates)
  {
    hide Decision, IsConv;
    var o, all := order + rel, out + scored;
    forall i | 0 <= i < |o| ensures IsConv(es, o[i]) {
      assert o[i] == if i < |order| then order[i] else rel[i - |order|];
    }
    forall i | 0 <= i < |all| ensures all[i] == Decision(es, o[i], window, lateness, candidates) {
      assert all[i] == if i < |out| then out[i] else scored[i - |out|];
      assert o[i] == if i < |order| then order[i] else rel[i - |order|];
    }
  }

  /** `rel` is due exactly at event `k`, or at the end of input. */
  ghost predicate DueAt(es: seq<Event>, k: nat, rel: seq<nat>, lateness: Time)
    requires k <= |es|
  {
    && ConvPositions(es, rel)
    && forall p: nat :: p in rel ==>
         && IsConv(es, p) && p <= k
         && (p < k ==> !Reached(es, k, lateness, es[p].EventTime()))
         && (k < |es| ==> Reached(es, k + 1, lateness, es[p].EventTime()))
  }

  /** The state that conversions released at event `k`, or at the end of input, probe. */
  ghost function StateAt(es: seq<Event>, k: nat, window: Time, lateness: Time): seq<Exposure>
    requires k <= |es|
  {
    if k < |es| then Visible(es, k + 1, window, lateness) else Retained(es, k, window, lateness)
  }

  lemma ProbesNow(es: seq<Event>, k: nat, rel: seq<nat>, window: Time, lateness: Time)
    requires k <= |es| && DueAt(es, k, rel, lateness)
    ensures forall p: nat :: p in rel ==>
              && IsConv(es, p) && ReleaseStep(es, p, lateness) == k + 1
              && ProbedState(es, p, window, lateness) == StateAt(es, k, window, lateness)
  {
    forall p: nat | p in rel
      ensures ReleaseStep(es, p, lateness) == k + 1
      ensures ProbedState(es, p, window, lateness) == StateAt(es, k, window, lateness)
    {
      ReleasedNow(es, p, k, window, lateness);
    }
  }

  ghost predicate SomeRaises(es: seq<Event>, rel: seq<nat>, candidates: map<Id, seq<Id>>) {
    exists i :: 0 <= i < |rel| && IsConv(es, rel[i]) && Raises(es[rel[i]].conv, candidates)
  }

  lemma ScoredRaise(es: seq<Event>, state: seq<Exposure>, rel: seq<nat>, window: Time, candidates: map<Id, seq<Id>>)
    requires ConvPositions(es, rel)
    ensures AttributeHousehold(state, Convs(es, rel), window, candidates).ValueError? <==>
        SomeRaises(es, rel, candidates)
  {
    hide HotDecision, Raises;
    var cs := Convs(es, rel);
    AttributeMany(state, cs, window, candidates);
    if c :| c in cs && Raises(c, candidates) {
      var i :| 0 <= i < |cs| && cs[i] == c;
      assert Raises(es[rel[i]].conv, candidates);
    }
    if SomeRaises(es, rel, candidates) {
      var i :| 0 <= i < |rel| && IsConv(es, rel[i]) && Raises(es[rel[i]].conv, candidates);
      assert cs[i] in cs;
    }
  }

  lemma ScoredAre(es: seq<Event>, k: nat, rel: seq<nat>, window: Time, lateness: Time, candidates: map<Id, seq<Id>>)
    requires k <= |es| && DueAt(es, k, rel, lateness)
    ensures var r := AttributeHousehold(StateAt(es, k, window, lateness), Convs(es, rel), window, candidates);
      r.ValueError? <==> SomeRaises(es, rel, candidates)
    ensures var r := AttributeHousehold(StateAt(es, k, window, lateness), Convs(es, rel), window, candidates);
      r.Ok? ==> Scores(es, r.value, rel, window, lateness, candidates)
  {
    hide HotDecision, Raises, ProbedState, StateAt, SomeRaises, CandidateSetOf, AttributeHousehold;
    var state, cs := StateAt(es, k, window, lateness), Convs(es, rel);
    ScoredRaise(es, state, rel, window, candidates);
    AttributeMany(state, cs, window, candidates);
    ProbesNow(es, k, rel, window, lateness);
    forall i | 0 <= i < |rel| ensures ProbedState(es, rel[i], window, lateness) == state { assert rel[i] in rel; }
  }

  /** `ps` lists, in arrival order, the conversions among the first `n` events that the
      watermark after `k` events has not reached. */
  ghost predicate Unreached(es: seq<Event>, n: nat, k: nat, ps: seq<nat>, lateness: Time)
    requires n <= |es| && k <= |es|
  {
    && ConvPositions(es, ps) && Ascending(ps)
    && forall p: nat :: p in ps <==> p < n && IsConv(es, p) && !Reached(es, k, lateness, es[p].EventTime())
  }

  lemma BufferedIs(es: seq<Event>, k: nat, waiting: seq<nat>, lateness: Time)
    requires k < |es| && Unreached(es, k, k, waiting, lateness)
    ensures var now := Arrived(es, waiting, k);
      && ConvPositions(es, now) && Ascending(now)
      && Convs(es, now) == Convs(es, waiting) + (if es[k].Res? then [es[k].conv] else [])
      && forall p: nat :: p in now <==>
           p <= k && IsConv(es, p) && (p < k ==> !Reached(es, k, lateness, es[p].EventTime()))
  {
    forall i | 0 <= i < |waiting| ensures waiting[i] < k { assert waiting[i] in waiting; }
    ArrivedPositions(es, k, waiting);
    ArrivedConvs(es, k, waiting);
  }

  lemma Split(es: seq<Event>, k: nat, waiting: seq<nat>, lateness: Time) returns (rel: seq<nat>, rest: seq<nat>)
    requires k < |es| && Unreached(es, k, k, waiting, lateness)
    ensures ConvPositions(es, rel) && Ascending(rel)
    ensures forall p: nat :: p in rel <==>
              && p <= k && IsConv(es, p)
              && (p < k ==> !Reached(es, k, lateness, es[p].EventTime()))
              && Reached(es, k + 1, lateness, es[p].EventTime())
    ensures Unreached(es, k + 1, k + 1, rest, lateness)
    ensures var w := Watermark(es, k + 1, lateness).value;
      var buffered := Convs(es, waiting) + (if es[k].Res? then [es[k].conv] else []);
      Released(buffered, w) == Convs(es, rel) && Waiting(buffered, w) == Convs(es, rest)
  {
    var w := Watermark(es, k + 1, lateness).value;
    var now := Arrived(es, waiting, k);
    hide Watermark, Convs, Select, Released, Waiting, Arrived;
    BufferedIs(es, k, waiting, lateness);
    rel, rest := Select(es, now, w, true), Select(es, now, w, false);
    SelectIs(es, now, w, true);
    SelectIs(es, now, w, false);
    ReleasedMatches(es, now, w);
    WaitingMatches(es, now, w);
    StillUnreached(es, k, lateness);
  }

  lemma StillUnreached(es: seq<Event>, k: nat, lateness: Time)
    requires k < |es|
    ensures forall t :: Reached(es, k, lateness, t) ==> Reached(es, k + 1, lateness, t)
  {
    if k > 0 { WatermarkRises(es, k, k + 1, lateness); }
  }

  /** One tick of the loop, on positions. */
  lemma Tick(es: seq<Event>, k: nat, order: seq<nat>, waiting: seq<nat>, window: Time, lateness: Time)
    returns (rel: seq<nat>, rest: seq<nat>)
    requires k < |es| && Progress(es, k, order, lateness) && Unreached(es, k, k, waiting, lateness)
    ensures DueAt(es, k, rel, lateness) && ConvPositions(es, rel) && ConvPositions(es, rest)
    ensures Progress(es, k + 1, order + rel, lateness)
    ensures Unreached(es, k + 1, k + 1, rest, lateness)
    ensures var w := Watermark(es, k + 1, lateness).value;
      var buffered := Convs(es, waiting) + (if es[k].Res? then [es[k].conv] else []);
      Released(buffered, w) == Convs(es, rel) && Waiting(buffered, w) == Convs(es, rest)
  {
    hide ReleaseStep, ProbedState, Released, Waiting, Convs, Watermark, Reached, ReleaseOrdered;
    rel, rest := Split(es, k, waiting, lateness);
    StillUnreached(es, k, lateness);
    ProbesNow(es, k, rel, window, lateness);
    OrderGrows(es, k, order, rel, lateness);
  }

  /** Score each of `convs` against `exposures`, one at a time. */
  method ScoreEach(exposures: seq<Exposure>, convs: seq<Resolved>, window: Time, candidates: map<Id, seq<Id>>)
    returns (r: Result<seq<Candidate>>)
    ensures r == AttributeHousehold(exposures, convs, window, candidates)
  {
    hide HotDecision;
    hide Raises;
    ghost var spec := AttributeHousehold(exposures, convs, window, candidates);
    AttributeMany(exposures, convs, window, candidates);
    var out: seq<Candidate> := [];
    for i := 0 to |convs|
      invariant forall j :: 0 <= j < i ==> !Raises(convs[j], candidates)
      invariant |out| == i
      invariant spec.Ok? ==> |spec.value| == |convs| && out == spec.value[..i]
    {
      AttributeOne(exposures, convs[i], window, candidates);
      match AttributeHousehold(exposures, [convs[i]], window, candidates)
      case ValueError =>
        assert convs[i] in convs;
        return ValueError;
      case Ok(one) => out := out + one;
    }
    assert forall c :: c in convs ==> !Raises(c, candidates);
    assert out == spec.value;
    r := Ok(out);
  }

  /** The watermark-gated, evicting pass over one household. `order` says which
      conversion each emitted candidate belongs to. */
  method AttributeHouseholdStreaming(events: seq<Event>, window: Time, lateness: Time, candidates: map<Id, seq<Id>>)
    returns (r: Result<StreamResult>, ghost order: seq<nat>)
    ensures r.ValueError? <==> exists c :: Res(c) in events && Raises(c, candidates)
    ensures r.Ok? ==> EveryConversionOnce(Arrival(events), order, lateness)
    ensures r.Ok? ==> Scores(Arrival(events), r.value.candidates, order, window, lateness, candidates)
    ensures r.Ok? ==> FinalState(Arrival(events), r.value.state, window, lateness)
  {
    hide Arrival, SameSet, Raises, Scores, FinalState, EveryConversionOnce, ConvPositions, Ascending;
    hide Keep, Released, Waiting, AttributeHousehold, SomeRaises, JoinAt;
    var es := Arrival(events);
    ArrivalSameSet(events);
    var exposures: seq<Exposure>, pending: seq<Resolved>, out: seq<Candidate> := [], [], [];
    var watermark: Option<Time>, peak: nat, evicted: nat := None, 0, 0;
    order := [];
    ghost var waiting: seq<nat> := [];
    Start(es, window, lateness, candidates);
    for k := 0 to |es|
      invariant JoinAt(es, k, Join(exposures, pending, out, watermark, peak, evicted), order, waiting,
                       window, lateness, candidates)
    {
      ghost var rel, rest := Advance(es, k, Join(exposures, pending, out, watermark, peak, evicted), order, waiting,
                                     window, lateness, candidates);
      watermark := Some(EventTimeWatermark(watermark, es[k].EventTime(), lateness));
      if es[k].Exp? {
        exposures := exposures + [es[k].exposure];
      } else {
        pending := pending + [es[k].conv];
      }
      var scored;
      scored, pending := ReleaseDue(exposures, pending, watermark.value, window, candidates);
      if scored.ValueError? {
        RaiserIsAnEvent(events, es, rel, candidates);
        return ValueError, order;
      }
      out, order, waiting := out + scored.value, order + rel, rest;
      var keep := Keep(exposures, watermark.value, window);
      KeepShrinks(exposures, watermark.value, window);
      evicted := evicted + (|exposures| - |keep|);
      exposures := keep;
      peak := if |exposures| > peak then |exposures| else peak;
    }
    Flush(es, Join(exposures, pending, out, watermark, peak, evicted), order, waiting, window, lateness, candidates);
    var flushed := ScoreEach(exposures, pending, window, candidates);
    if flushed.ValueError? {
      RaiserIsAnEvent(events, es, waiting, candidates);
      return ValueError, order;
    }
    order := order + waiting;
    NoEventRaises(events, es, order, lateness, candidates);
    r := Ok(StreamResult(out + flushed.value, StreamState(peak, evicted, |exposures|)));
  }

  /** The variables of the loop. */
  datatype Join = Join(exposures: seq<Exposure>, pending: seq<Resolved>, out: seq<Candidate>,
                       watermark: Option<Time>, peak: nat, evicted: nat)

  /** The loop invariant: after `k` events every variable has its closed form. */
  ghost predicate JoinAt(es: seq<Event>, k: nat, j: Join, order: seq<nat>, waiting: seq<nat>, window: Time,
                         lateness: Time, candidates: map<Id, seq<Id>>)
    requires k <= |es|
  {
    && j.watermark == Watermark(es, k, lateness)
    && j.exposures == Retained(es, k, window, lateness)
    && j.peak == Peak(es, k, window, lateness)
    && j.evicted + |j.exposures| == ExposureCount(es, k)
    && Progress(es, k, order, lateness)
    && Unreached(es, k, k, waiting, lateness)
    && ConvPositions(es, waiting) && j.pending == Convs(es, waiting)
    && ConvPositions(es, order) && Scores(es, j.out, order, window, lateness, candidates)
    && !SomeRaises(es, order, candidates)
  }

  lemma Start(es: seq<Event>, window: Time, lateness: Time, candidates: map<Id, seq<Id>>)
    ensures JoinAt(es, 0, Join([], [], [], None, 0, 0), [], [], window, lateness, candidates)
  {
  }

  /** What one event does to the state of the join. */
  lemma StateStep(es: seq<Event>, k: nat, window: Time, lateness: Time)
    requires k < |es|
    ensures var w := EventTimeWatermark(Watermark(es, k, lateness), es[k].EventTime(), lateness);
      && Watermark(es, k + 1, lateness) == Some(w)
      && Keep(StateAt(es, k, window, lateness), w, window) == Retained(es, k + 1, window, lateness)
    ensures StateAt(es, k, window, lateness)
         == Retained(es, k, window, lateness) + (if es[k].Exp? then [es[k].exposure] else [])
    ensures |Retained(es, k + 1, window, lateness)| <= |StateAt(es, k, window, lateness)|
    ensures ExposureCount(es, k + 1) == ExposureCount(es, k) + (if es[k].Exp? then 1 else 0)
    ensures var before, now := Peak(es, k, window, lateness), |Retained(es, k + 1, window, lateness)|;
      Peak(es, k + 1, window, lateness) == if now > before then now else before
  {
    EvictionStep(es, k, window, lateness);
    KeepShrinks(StateAt(es, k, window, lateness), Watermark(es, k + 1, lateness).value, window);
  }

  /** One turn of the loop keeps its invariant, unless a released conversion raises. */
  lemma Advance(es: seq<Event>, k: nat, j: Join, order: seq<nat>, waiting: seq<nat>, window: Time, lateness: Time,
                candidates: map<Id, seq<Id>>)
    returns (rel: seq<nat>, rest: seq<nat>)
    requires k < |es| && JoinAt(es, k, j, order, waiting, window, lateness, candidates)
    ensures var w := EventTimeWatermark(j.watermark, es[k].EventTime(), lateness);
      var state := if es[k].Exp? then j.exposures + [es[k].exposure] else j.exposures;
      var pending := if es[k].Res? then j.pending + [es[k].conv] else j.pending;
      var scored, keep := AttributeHousehold(state, Released(pending, w), window, candidates), Keep(state, w, window);
      if scored.ValueError? then SomeRaises(es, rel, candidates)
      else
        && |keep| <= |state|
        && JoinAt(es, k + 1,
                  Join(keep, Waiting(pending, w), j.out + scored.value, Some(w),
                       if |keep| > j.peak then |keep| else j.peak, j.evicted + (|state| - |keep|)),
                  order + rel, rest, window, lateness, candidates)
  {
    hide Watermark, Retained, StateAt, Peak, ExposureCount, Convs, Unreached, Progress, Scores, SomeRaises, DueAt;
    hide Keep, Waiting, Released, AttributeHousehold, EventTimeWatermark, ConvPositions, Ascending;
    rel, rest := Tick(es, k, order, waiting, window, lateness);
    StateStep(es, k, window, lateness);
    assert j.pending + [] == j.pending && j.exposures + [] == j.exposures;
    ScoredAre(es, k, rel, window, lateness, candidates);
    var scored := AttributeHousehold(StateAt(es, k, window, lateness), Convs(es, rel), window, candidates);
    if scored.Ok? {
      ScoresGrow(es, j.out, order, scored.value, rel, window, lateness, candidates);
      NoneRaiseGrows(es, order, rel, candidates);
    }
  }

  /** At end of input everything still pending is released. */
  lemma Flush(es: seq<Event>, j: Join, order: seq<nat>, waiting: seq<nat>, window: Time, lateness: Time,
              candidates: map<Id, seq<Id>>)
    requires JoinAt(es, |es|, j, order, waiting, window, lateness, candidates)
    ensures EveryConversionOnce(es, order + waiting, lateness)
    ensures FinalState(es, StreamState(j.peak, j.evicted, |j.exposures|), window, lateness)
    ensures var scored := AttributeHousehold(j.exposures, j.pending, window, candidates);
      if scored.ValueError? then SomeRaises(es, waiting, candidates)
      else
        && Scores(es, j.out + scored.value, order + waiting, window, lateness, candidates)
        && !SomeRaises(es, order + waiting, candidates)
  {
    hide ReleaseStep;
    ProbesNow(es, |es|, waiting, window, lateness);
    OrderGrows(es, |es|, order, waiting, lateness);
    ScoredAre(es, |es|, waiting, window, lateness, candidates);
    var scored := AttributeHousehold(j.exposures, j.pending, window, candidates);
    if scored.Ok? {
      ScoresGrow(es, j.out, order, scored.value, waiting, window, lateness, candidates);
      NoneRaiseGrows(es, order, waiting, candidates);
    }
  }

  lemma NoneRaiseGrows(es: seq<Event>, order: seq<nat>, rel: seq<nat>, candidates: map<Id, seq<Id>>)
    requires !SomeRaises(es, order, candidates) && !SomeRaises(es, rel, candidates)
    ensures !SomeRaises(es, order + rel, candidates)
  {
  }

  lemma NoEventRaises(events: seq<Event>, es: seq<Event>, order: seq<nat>, lateness: Time, candidates: map<Id, seq<Id>>)
    requires SameSet(es, events)
    requires !SomeRaises(es, order, candidates) && EveryConversionOnce(es, order, lateness)
    ensures forall c :: Res(c) in events ==> !Raises(c, candidates)
  {
    forall c | Res(c) in events ensures !Raises(c, candidates) {
      assert Res(c) in es;
      var p: nat :| p < |es| && es[p] == Res(c);
      assert p in order;
    }
  }

  /** Release before evicting: score every pending conversion the watermark has reached. */
  method ReleaseDue(exposures: seq<Exposure>, pending: seq<Resolved>, watermark: Time, window: Time,
                    candidates: map<Id, seq<Id>>)
    returns (scored: Result<seq<Candidate>>, rest: seq<Resolved>)
    ensures scored == AttributeHousehold(exposures, Released(pending, watermark), window, candidates)
    ensures rest == Waiting(pending, watermark)
  {
    scored, rest := Ok([]), pending;
    if pending != [] {
      var released := Released(pending, watermark);
      if released != [] {
        rest := Waiting(pending, watermark);
        scored := ScoreEach(exposures, released, window, candidates);
      } else {
        NoneDueAllWait(pending, watermark);
      }
    }
  }

  lemma RaiserIsAnEvent(events: seq<Event>, es: seq<Event>, rel: seq<nat>, candidates: map<Id, seq<Id>>)
    requires SameSet(es, events) && SomeRaises(es, rel, candidates)
    ensures exists c :: Res(c) in events && Raises(c, candidates)
  {
    var i :| 0 <= i < |rel| && IsConv(es, rel[i]) && Raises(es[rel[i]].conv, candidates);
    assert es[rel[i]] in es && es[rel[i]] == Res(es[rel[i]].conv);
  }

  lemma {:induction false} KeepShrinks(exposures: seq<Exposure>, watermark: Time, window: Time)
    ensures |Keep(exposures, watermark, window)| <= |exposures|
  {
    if exposures != [] { KeepShrinks(Init(exposures), watermark, window); }
  }
}
