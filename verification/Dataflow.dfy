/** The engine over whole streams (streaming/dataflow.py:98) and its non-evicting oracle
    (streaming/attribute.py:317): group by household, decide, sort by conversion id. */
module Dataflow {
  import opened Rows
  import opened Orders
  import opened Leaf
  import opened Collapse
  import opened Engine
  import opened Lateness

  // ---------- grouping by household ----------

  function ExposuresAt(exposures: seq<Exposure>, h: Id): seq<Exposure> {
    if exposures == [] then []
    else ExposuresAt(Init(exposures), h) + (if Last(exposures).householdId == h then [Last(exposures)] else [])
  }

  function ConversionsAt(rows: seq<Resolved>, h: Id): seq<Resolved> {
    if rows == [] then []
    else ConversionsAt(Init(rows), h) + (if Last(rows).householdId == h then [Last(rows)] else [])
  }

  function HouseholdEvents(exposures: seq<Exposure>, rows: seq<Resolved>, h: Id): seq<Event> {
    var exps, ress := ExposuresAt(exposures, h), ConversionsAt(rows, h);
    seq(|exps|, i requires 0 <= i < |exps| => Exp(exps[i])) + seq(|ress|, i requires 0 <= i < |ress| => Res(ress[i]))
  }

  /** The arrival-ordered stream of one household. */
  function Stream(exposures: seq<Exposure>, rows: seq<Resolved>, h: Id): seq<Event> {
    Arrival(HouseholdEvents(exposures, rows, h))
  }

  lemma {:induction false} ExposuresAtIs(exposures: seq<Exposure>, h: Id, e: Exposure)
    ensures e in ExposuresAt(exposures, h) <==> e in exposures && e.householdId == h
  {
    if exposures != [] {
      ExposuresAtIs(Init(exposures), h, e);
      assert exposures == Init(exposures) + [Last(exposures)];
    }
  }

  lemma {:induction false} ConversionsAtIs(rows: seq<Resolved>, h: Id, c: Resolved)
    ensures c in ConversionsAt(rows, h) <==> c in rows && c.householdId == h
  {
    if rows != [] {
      ConversionsAtIs(Init(rows), h, c);
      assert rows == Init(rows) + [Last(rows)];
    }
  }

  lemma HouseholdEventsAre(exposures: seq<Exposure>, rows: seq<Resolved>, h: Id, m: Event)
    ensures m in HouseholdEvents(exposures, rows, h) <==>
            match m
            case Exp(e) => e in exposures && e.householdId == h
            case Res(c) => c in rows && c.householdId == h
  {
    var events, exps, ress := HouseholdEvents(exposures, rows, h), ExposuresAt(exposures, h), ConversionsAt(rows, h);
    match m
    case Exp(e) =>
      ExposuresAtIs(exposures, h, e);
      if e in exps { var i :| 0 <= i < |exps| && exps[i] == e; assert events[i] == m; }
      if m in events { var i :| 0 <= i < |events| && events[i] == m; assert i < |exps| && exps[i] == e; }
    case Res(c) =>
      ConversionsAtIs(rows, h, c);
      if c in ress { var i :| 0 <= i < |ress| && ress[i] == c; assert events[|exps| + i] == m; }
      if m in events { var i :| 0 <= i < |events| && events[i] == m; assert ress[i - |exps|] == c; }
  }

  lemma StreamIs(exposures: seq<Exposure>, rows: seq<Resolved>, h: Id, m: Event)
    ensures m in Stream(exposures, rows, h) <==>
            match m
            case Exp(e) => e in exposures && e.householdId == h
            case Res(c) => c in rows && c.householdId == h
  {
    ArrivalSameSet(HouseholdEvents(exposures, rows, h));
    HouseholdEventsAre(exposures, rows, h, m);
  }

  // ---------- each conversion occurs once in its stream ----------

  /** Every conversion id occurs once. */
  ghost predicate DistinctCids(rows: seq<Resolved>) {
    forall i, j :: 0 <= i < j < |rows| ==> rows[i].Cid() != rows[j].Cid()
  }

  lemma {:induction false} DistinctAtMostOnce<T>(s: seq<T>, x: T)
    requires forall i, j :: 0 <= i < j < |s| ==> s[i] != s[j]
    ensures multiset(s)[x] <= 1
  {
    if s != [] {
      DistinctAtMostOnce(Init(s), x);
      assert s == Init(s) + [Last(s)];
      assert Last(s) !in Init(s);
    }
  }

  lemma TwiceCounts<T>(s: seq<T>, i: nat, j: nat)
    requires i < j < |s| && s[i] == s[j]
    ensures multiset(s)[s[i]] >= 2
  {
    assert s == s[..j] + [s[j]] + s[j + 1..];
    assert s[..j][i] == s[i];
  }

  lemma {:induction false} ConversionsAtDistinct(rows: seq<Resolved>, h: Id)
    requires DistinctCids(rows)
    ensures DistinctCids(ConversionsAt(rows, h))
  {
    if rows != [] {
      ConversionsAtDistinct(Init(rows), h);
      var prev := ConversionsAt(Init(rows), h);
      forall i | 0 <= i < |prev| ensures prev[i].Cid() != Last(rows).Cid() {
        assert prev[i] in prev;
        ConversionsAtIs(Init(rows), h, prev[i]);
        var j :| 0 <= j < |Init(rows)| && Init(rows)[j] == prev[i];
      }
    }
  }

  lemma StreamHoldsOnce(exposures: seq<Exposure>, rows: seq<Resolved>, h: Id, p: nat)
    requires DistinctCids(rows) && IsConv(Stream(exposures, rows, h), p)
    ensures OnlyAt(Stream(exposures, rows, h), p)
  {
    var events, es := HouseholdEvents(exposures, rows, h), Stream(exposures, rows, h);
    var exps, ress := events[..|ExposuresAt(exposures, h)|], events[|ExposuresAt(exposures, h)|..];
    ConversionsAtDistinct(rows, h);
    DistinctAtMostOnce(ress, es[p]);
    assert es[p] !in exps;
    assert events == exps + ress;
    assert multiset(es)[es[p]] <= 1;
    forall i | 0 <= i < |es| && es[i] == es[p] ensures i == p {
      if i < p { TwiceCounts(es, i, p); } else if p < i { TwiceCounts(es, p, i); }
    }
  }

  lemma OneRowDistinct(resolved: seq<Resolved>)
    ensures DistinctCids(OneRow(resolved))
  {
    OneRowOrder(resolved);
  }

  // ---------- the rows of a run ----------

  predicate ConvLe(a: Resolved, b: Resolved) { a.Cid() <= b.Cid() }
  predicate RowLe(a: Attributed, b: Attributed) { a.Cid() <= b.Cid() }

  /** What the engine decides for one conversion. */
  function EngineCandidate(exposures: seq<Exposure>, resolved: seq<Resolved>, c: Resolved, lateness: Time): Candidate {
    var es := Stream(exposures, OneRow(resolved), c.householdId);
    if Res(c) in es then
      Decision(es, IndexOf(es, Res(c)), HOT_WINDOW, lateness, CandidateHouseholds(resolved))
    else Unattributed(c, [])
  }

  /** What the oracle decides for it: no watermark, no eviction. */
  function OracleCandidate(exposures: seq<Exposure>, resolved: seq<Resolved>, c: Resolved): Candidate {
    HotDecision(ExposuresAt(exposures, c.householdId), c, HOT_WINDOW, CandidateSetOf(c, CandidateHouseholds(resolved)))
  }

  function EngineRow(exposures: seq<Exposure>, resolved: seq<Resolved>, lateness: Time): Resolved -> Attributed {
    c => EngineCandidate(exposures, resolved, c, lateness).row
  }

  function OracleRow(exposures: seq<Exposure>, resolved: seq<Resolved>): Resolved -> Attributed {
    c => OracleCandidate(exposures, resolved, c).row
  }

  /** One row per conversion, by conversion id. */
  function Tabulate(one: seq<Resolved>, row: Resolved -> Attributed): seq<Attributed> {
    var s := Sort(one, ConvLe);
    seq(|s|, i requires 0 <= i < |s| => row(s[i]))
  }

  function EngineOutput(exposures: seq<Exposure>, resolved: seq<Resolved>, lateness: Time): seq<Attributed> {
    Tabulate(OneRow(resolved), EngineRow(exposures, resolved, lateness))
  }

  function OracleOutput(exposures: seq<Exposure>, resolved: seq<Resolved>): seq<Attributed> {
    Tabulate(OneRow(resolved), OracleRow(exposures, resolved))
  }

  /** Some row of the run would break the candidate-set invariant. */
  ghost predicate RunRaises(resolved: seq<Resolved>) {
    exists c :: c in OneRow(resolved) && Raises(c, CandidateHouseholds(resolved))
  }

  /** On the fields of the rows: the run raises iff some collapsed conversion claims a number of
      candidates that is not the number of households its rows fanned out to. */
  lemma RunRaisesIff(resolved: seq<Resolved>)
    ensures RunRaises(resolved) <==>
            exists c :: c in OneRow(resolved) && c.candidateCount > 1 &&
              c.candidateCount !=
                |set r | r in resolved && r.candidateCount > 1 && r.conv.conversionId == c.conv.conversionId
                  :: r.householdId|
  {
    hide OneRow, CandidateHouseholds;
    forall c | c in OneRow(resolved)
      ensures Raises(c, CandidateHouseholds(resolved)) <==>
              c.candidateCount > 1 &&
              c.candidateCount !=
                |set r | r in resolved && r.candidateCount > 1 && r.conv.conversionId == c.conv.conversionId
                  :: r.householdId|
    {
      ConversionRaisesIff(resolved, c);
    }
  }

  lemma ConversionRaisesIff(resolved: seq<Resolved>, c: Resolved)
    requires c in OneRow(resolved)
    ensures Raises(c, CandidateHouseholds(resolved)) <==>
            c.candidateCount > 1 &&
            c.candidateCount !=
              |set r | r in resolved && r.candidateCount > 1 && r.conv.conversionId == c.conv.conversionId
                :: r.householdId|
  {
    hide OneRow;
    InOneRow(resolved, c);
    if c.candidateCount > 1 {
      assert c.householdId in FanOut(resolved, c.Cid()) && c.Cid() in AmbiguousIds(resolved);
      assert FanOut(resolved, c.Cid()) ==
             set r | r in resolved && r.candidateCount > 1 && r.conv.conversionId == c.conv.conversionId
               :: r.householdId;
    }
  }

  lemma DecisionKeepsConversion(exposures: seq<Exposure>, c: Resolved, window: Time, hhs: seq<Id>)
    ensures HotDecision(exposures, c, window, hhs).row.res == c
  {
  }

  lemma TabulateSorted(one: seq<Resolved>, row: Resolved -> Attributed)
    requires DistinctCids(one) && forall c :: row(c).res == c
    ensures SortedBy(Tabulate(one, row), RowLe) && NoTies(Tabulate(one, row), RowLe)
  {
    SortSorts(one, ConvLe);
    SortNoTies(one, ConvLe);
  }

  lemma TabulateHolds(one: seq<Resolved>, row: Resolved -> Attributed, a: Attributed)
    requires forall c :: row(c).res == c
    ensures a in Tabulate(one, row) <==> a.res in one && a == row(a.res)
  {
    var s, rows := Sort(one, ConvLe), Tabulate(one, row);
    SameElements(s, one);
    if a in rows {
      var i :| 0 <= i < |rows| && rows[i] == a;
      assert s[i] in s;
    }
    if a.res in one && a == row(a.res) {
      assert a.res in s;
      var i :| 0 <= i < |s| && s[i] == a.res;
      assert rows[i] == a;
    }
  }

  lemma TabulateIs(one: seq<Resolved>, row: Resolved -> Attributed)
    requires forall c :: row(c).res == c
    ensures forall a :: a in Tabulate(one, row) <==> a.res in one && a == row(a.res)
  {
    forall a ensures a in Tabulate(one, row) <==> a.res in one && a == row(a.res) { TabulateHolds(one, row, a); }
  }

  /** However the rows were produced, sorting them gives the table. */
  lemma SortedIntoTable(rows: seq<Attributed>, one: seq<Resolved>, row: Resolved -> Attributed)
    requires DistinctCids(one) && forall c :: row(c).res == c
    requires NoTies(rows, RowLe)
    requires forall a :: a in rows <==> a.res in one && a == row(a.res)
    ensures Sort(rows, RowLe) == Tabulate(one, row)
  {
    TabulateSorted(one, row);
    TabulateIs(one, row);
    SortSorts(rows, RowLe);
    SortNoTies(rows, RowLe);
    SortedUnique(Sort(rows, RowLe), Tabulate(one, row), RowLe);
  }

  lemma TabulateCongruence(one: seq<Resolved>, f: Resolved -> Attributed, g: Resolved -> Attributed)
    ensures Tabulate(one, f) == Tabulate(one, g) <==> forall c :: c in one ==> f(c) == g(c)
  {
    var s := Sort(one, ConvLe);
    SameElements(s, one);
    if Tabulate(one, f) == Tabulate(one, g) {
      forall c | c in one ensures f(c) == g(c) {
        assert c in s;
        var i :| 0 <= i < |s| && s[i] == c;
        assert Tabulate(one, f)[i] == Tabulate(one, g)[i];
      }
    }
    if forall c :: c in one ==> f(c) == g(c) {
      forall i | 0 <= i < |s| ensures f(s[i]) == g(s[i]) { assert s[i] in s; }
    }
  }

  // ---------- the grouping loops ----------

  function Bucket<T>(m: map<Id, seq<T>>, h: Id): seq<T> { if h in m then m[h] else [] }

  lemma AppendExposure(exposures: seq<Exposure>, e: Exposure, rows: seq<Resolved>, h: Id)
    requires rows == []
    ensures HouseholdEvents(exposures + [e], rows, h)
         == HouseholdEvents(exposures, rows, h) + (if e.householdId == h then [Exp(e)] else [])
  {
    assert Init(exposures + [e]) == exposures;
    if e.householdId != h { assert ExposuresAt(exposures, h) + [] == ExposuresAt(exposures, h); }
  }

  lemma AppendConversion(exposures: seq<Exposure>, rows: seq<Resolved>, c: Resolved, h: Id)
    ensures HouseholdEvents(exposures, rows + [c], h)
         == HouseholdEvents(exposures, rows, h) + (if c.householdId == h then [Res(c)] else [])
  {
    assert Init(rows + [c]) == rows;
    if c.householdId != h { assert ConversionsAt(rows, h) + [] == ConversionsAt(rows, h); }
  }

  /** The `events` dict: exposures first, then conversions, in input order; `keys`
      remembers the order in which households came in. */
  method GroupEvents(exposures: seq<Exposure>, one: seq<Resolved>) returns (keys: seq<Id>, events: map<Id, seq<Event>>)
    ensures forall i, j :: 0 <= i < j < |keys| ==> keys[i] != keys[j]
    ensures forall h :: h in keys <==> h in events
    ensures forall h :: h in events <==> HouseholdEvents(exposures, one, h) != []
    ensures forall h :: h in events ==> events[h] == HouseholdEvents(exposures, one, h)
  {
    hide HouseholdEvents, Grouped;
    keys, events := [], map[];
    EmptyEvents();
    for i := 0 to |exposures|
      invariant forall i, j :: 0 <= i < j < |keys| ==> keys[i] != keys[j]
      invariant forall h :: h in keys <==> h in events
      invariant forall h :: h in events ==> events[h] != []
      invariant Grouped(events, exposures[..i], [])
    {
      var e := exposures[i];
      assert exposures[..i + 1] == exposures[..i] + [e];
      ExposureGrouped(exposures[..i], e, events);
      if e.householdId !in events { keys := keys + [e.householdId]; }
      events := events[e.householdId := Bucket(events, e.householdId) + [Exp(e)]];
    }
    assert exposures[..|exposures|] == exposures && one[..0] == [];
    for i := 0 to |one|
      invariant forall i, j :: 0 <= i < j < |keys| ==> keys[i] != keys[j]
      invariant forall h :: h in keys <==> h in events
      invariant forall h :: h in events ==> events[h] != []
      invariant Grouped(events, exposures, one[..i])
    {
      var c := one[i];
      assert one[..i + 1] == one[..i] + [c];
      ConversionGrouped(exposures, one[..i], c, events);
      if c.householdId !in events { keys := keys + [c.householdId]; }
      events := events[c.householdId := Bucket(events, c.householdId) + [Res(c)]];
    }
    assert one[..|one|] == one;
    forall h { GroupedIs(events, exposures, one, h); }
  }

  ghost predicate Grouped(events: map<Id, seq<Event>>, exposures: seq<Exposure>, rows: seq<Resolved>) {
    forall h :: Bucket(events, h) == HouseholdEvents(exposures, rows, h)
  }

  lemma GroupedIs(events: map<Id, seq<Event>>, exposures: seq<Exposure>, rows: seq<Resolved>, h: Id)
    requires Grouped(events, exposures, rows) && forall k :: k in events ==> events[k] != []
    ensures h in events <==> HouseholdEvents(exposures, rows, h) != []
    ensures h in events ==> events[h] == HouseholdEvents(exposures, rows, h)
  {
    hide HouseholdEvents;
    assert Bucket(events, h) == HouseholdEvents(exposures, rows, h);
  }

  lemma ExposureGrouped(exposures: seq<Exposure>, e: Exposure, events: map<Id, seq<Event>>)
    requires Grouped(events, exposures, [])
    ensures Grouped(events[e.householdId := Bucket(events, e.householdId) + [Exp(e)]], exposures + [e], [])
  {
    hide HouseholdEvents;
    forall h { AppendExposure(exposures, e, [], h); }
  }

  lemma ConversionGrouped(exposures: seq<Exposure>, rows: seq<Resolved>, c: Resolved, events: map<Id, seq<Event>>)
    requires Grouped(events, exposures, rows)
    ensures Grouped(events[c.householdId := Bucket(events, c.householdId) + [Res(c)]], exposures, rows + [c])
  {
    hide HouseholdEvents;
    forall h { AppendConversion(exposures, rows, c, h); }
  }

  lemma EmptyEvents()
    ensures Grouped(map[], [], [])
  {
  }

  // ---------- the engine ----------

  /** `rows` is what `row` gives the conversions of the households `hs`, each once. */
  ghost predicate RowsOfHouseholds(rows: seq<Attributed>, one: seq<Resolved>, hs: seq<Id>,
                                   row: Resolved -> Attributed)
  {
    && NoTies(rows, RowLe)
    && forall a :: a in rows <==> a.res in one && a.res.householdId in hs && a == row(a.res)
  }

  lemma NextHousehold(rows: seq<Attributed>, more: seq<Attributed>, one: seq<Resolved>, hs: seq<Id>, h: Id,
                      row: Resolved -> Attributed)
    requires DistinctCids(one) && h !in hs
    requires RowsOfHouseholds(rows, one, hs, row) && RowsOfHouseholds(more, one, [h], row)
    ensures RowsOfHouseholds(rows + more, one, hs + [h], row)
  {
    var all := rows + more;
    forall i, j | 0 <= i < j < |all| ensures !(RowLe(all[i], all[j]) && RowLe(all[j], all[i])) {
      if i < |rows| && j >= |rows| {
        assert all[i] in rows && all[j] in more;
        var a :| 0 <= a < |one| && one[a] == all[i].res;
        var b :| 0 <= b < |one| && one[b] == all[j].res;
        assert a != b;
      }
    }
  }

  function RowsOf(cands: seq<Candidate>): seq<Attributed> {
    seq(|cands|, i requires 0 <= i < |cands| => cands[i].row)
  }

  /** What one household's streaming pass emits is the engine's row of each of its conversions. */
  lemma HouseholdRows(exposures: seq<Exposure>, resolved: seq<Resolved>, h: Id, lateness: Time,
                      out: seq<Candidate>, order: seq<nat>)
    requires EveryConversionOnce(Stream(exposures, OneRow(resolved), h), order, lateness)
    requires Scores(Stream(exposures, OneRow(resolved), h), out, order, HOT_WINDOW, lateness,
        CandidateHouseholds(resolved))
    ensures RowsOfHouseholds(RowsOf(out), OneRow(resolved), [h], EngineRow(exposures, resolved, lateness))
  {
    hide Stream, OneRow, CandidateHouseholds, HotDecision, ReleaseStep, ProbedState, DistinctCids;
    var one, row, rows := OneRow(resolved), EngineRow(exposures, resolved, lateness), RowsOf(out);
    var es := Stream(exposures, one, h);
    OneRowDistinct(resolved);
    forall i | 0 <= i < |out|
      ensures OnlyAt(es, order[i]) && rows[i].res == es[order[i]].conv && rows[i].res in one
      ensures rows[i].res.householdId == h && rows[i] == row(rows[i].res)
    {
      var p := order[i];
      var c := es[p].conv;
      StreamHoldsOnce(exposures, one, h, p);
      StreamIs(exposures, one, h, Res(c));
      DecisionKeepsConversion(ProbedState(es, p, HOT_WINDOW, lateness), c, HOT_WINDOW,
                              CandidateSetOf(c, CandidateHouseholds(resolved)));
      assert es[p] in es && IndexOf(es, Res(c)) == p;
    }
    forall a ensures a in rows <==> a.res in one && a.res.householdId in [h] && a == row(a.res) {
      if a.res in one && a.res.householdId == h && a == row(a.res) {
        StreamIs(exposures, one, h, Res(a.res));
        var p := IndexOf(es, Res(a.res));
        assert p in order;
        var i :| 0 <= i < |order| && order[i] == p;
        assert rows[i] == a;
      }
    }
    forall i, j | 0 <= i < j < |rows| ensures rows[i].Cid() != rows[j].Cid() {
      assert ReleasedBefore(es, order[i], order[j], lateness);
      assert rows[i].res != rows[j].res;
      DistinctConversions(one, rows[i].res, rows[j].res);
    }
  }

  lemma DistinctConversions(one: seq<Resolved>, c: Resolved, d: Resolved)
    requires DistinctCids(one) && c in one && d in one && c != d
    ensures c.Cid() != d.Cid()
  {
    var i :| 0 <= i < |one| && one[i] == c;
    var j :| 0 <= j < |one| && one[j] == d;
  }

  /** The engine over in-memory streams. */
  method RunAttribution(exposures: seq<Exposure>, resolved: seq<Resolved>, lateness: Time)
    returns (r: Result<seq<Attributed>>)
    ensures r.ValueError? <==> RunRaises(resolved)
    ensures r.Ok? ==> r.value == EngineOutput(exposures, resolved, lateness)
  {
    hide HouseholdEvents, Raises, Scores, EveryConversionOnce, FinalState, EngineRow, OneRow, Tabulate,
         DistinctCids;
    hide RowsOfHouseholds, CandidateHouseholds, Arrival, NoTies;
    var one := OneRowPerConversion(resolved);
    var candidates := CandidateHouseholdsByConversion(resolved);
    var keys, events := GroupEvents(exposures, one);
    ghost var row := EngineRow(exposures, resolved, lateness);
    OneRowDistinct(resolved);
    NoRowsYet(one, row);
    var rows: seq<Attributed> := [];
    for i := 0 to |keys|
      invariant RowsOfHouseholds(rows, one, keys[..i], row)
      invariant forall j, c :: 0 <= j < i && Res(c) in HouseholdEvents(exposures, one, keys[j]) ==>
          !Raises(c, candidates)
    {
      var h := keys[i];
      assert h in keys;
      var result, order := AttributeHouseholdStreaming(events[h], HOT_WINDOW, lateness, candidates);
      if result.ValueError? {
        var c :| Res(c) in events[h] && Raises(c, candidates);
        HouseholdEventsAre(exposures, one, h, Res(c));
        return ValueError;
      }
      HouseholdRows(exposures, resolved, h, lateness, result.value.candidates, order);
      assert keys[..i + 1] == keys[..i] + [h];
      NextHousehold(rows, RowsOf(result.value.candidates), one, keys[..i], h, row);
      rows := rows + RowsOf(result.value.candidates);
    }
    forall c | c in one ensures c.householdId in keys && !Raises(c, candidates) {
      HouseholdEventsAre(exposures, one, c.householdId, Res(c));
      assert c.householdId in events;
      var j :| 0 <= j < |keys| && keys[j] == c.householdId;
    }
    assert keys[..|keys|] == keys;
    AllHouseholds(rows, one, keys, row, exposures, resolved, lateness);
    r := Ok(Sort(rows, RowLe));
  }

  lemma NoRowsYet(one: seq<Resolved>, row: Resolved -> Attributed)
    ensures RowsOfHouseholds([], one, [], row)
  {
  }

  lemma AllHouseholds(rows: seq<Attributed>, one: seq<Resolved>, keys: seq<Id>, row: Resolved -> Attributed,
                      exposures: seq<Exposure>, resolved: seq<Resolved>, lateness: Time)
    requires one == OneRow(resolved) && row == EngineRow(exposures, resolved, lateness)
    requires RowsOfHouseholds(rows, one, keys, row) && forall c :: c in one ==> c.householdId in keys
    ensures Sort(rows, RowLe) == EngineOutput(exposures, resolved, lateness)
  {
    EngineRowKeepsConversion(exposures, resolved, lateness);
    OneRowDistinct(resolved);
    SortedIntoTable(rows, one, row);
  }

  lemma EngineRowKeepsConversion(exposures: seq<Exposure>, resolved: seq<Resolved>, lateness: Time)
    ensures forall c :: EngineRow(exposures, resolved, lateness)(c).res == c
  {
  }

  lemma OracleRowKeepsConversion(exposures: seq<Exposure>, resolved: seq<Resolved>)
    ensures forall c :: OracleRow(exposures, resolved)(c).res == c
  {
  }

  // ---------- the oracle ----------

  lemma OneMoreExposure(exposures: seq<Exposure>, e: Exposure, h: Id)
    ensures ExposuresAt(exposures + [e], h)
         == if e.householdId == h then ExposuresAt(exposures, h) + [e] else ExposuresAt(exposures, h)
  {
    assert Init(exposures + [e]) == exposures;
  }

  method GroupExposures(exposures: seq<Exposure>) returns (byHousehold: map<Id, seq<Exposure>>)
    ensures forall h :: Bucket(byHousehold, h) == ExposuresAt(exposures, h)
    ensures forall h :: h in byHousehold ==> byHousehold[h] != []
  {
    hide ExposuresAt;
    byHousehold := map[];
    forall h ensures ExposuresAt([], h) == [] { NoExposures(h); }
    for i := 0 to |exposures|
      invariant forall h :: h in byHousehold ==> byHousehold[h] != []
      invariant forall h :: Bucket(byHousehold, h) == ExposuresAt(exposures[..i], h)
    {
      var e := exposures[i];
      assert exposures[..i + 1] == exposures[..i] + [e];
      forall h { OneMoreExposure(exposures[..i], e, h); }
      byHousehold := byHousehold[e.householdId := Bucket(byHousehold, e.householdId) + [e]];
    }
    assert exposures[..|exposures|] == exposures;
  }

  lemma NoExposures(h: Id)
    ensures ExposuresAt([], h) == []
  {
  }

  method GroupConversions(one: seq<Resolved>) returns (keys: seq<Id>, byHousehold: map<Id, seq<Resolved>>)
    ensures forall i, j :: 0 <= i < j < |keys| ==> keys[i] != keys[j]
    ensures forall h :: h in keys <==> h in byHousehold
    ensures forall h :: Bucket(byHousehold, h) == ConversionsAt(one, h)
  {
    keys, byHousehold := [], map[];
    for i := 0 to |one|
      invariant forall i, j :: 0 <= i < j < |keys| ==> keys[i] != keys[j]
      invariant forall h :: h in keys <==> h in byHousehold
      invariant forall h :: Bucket(byHousehold, h) == ConversionsAt(one[..i], h)
    {
      var c := one[i];
      assert Init(one[..i + 1]) == one[..i] && Last(one[..i + 1]) == c;
      if c.householdId !in byHousehold { keys := keys + [c.householdId]; }
      byHousehold := byHousehold[c.householdId := Bucket(byHousehold, c.householdId) + [c]];
    }
    assert one[..|one|] == one;
  }

  lemma HouseholdOracleRows(exposures: seq<Exposure>, resolved: seq<Resolved>, h: Id, out: seq<Candidate>)
    requires AttributeHousehold(ExposuresAt(exposures, h), ConversionsAt(OneRow(resolved), h), HOT_WINDOW,
                                CandidateHouseholds(resolved)) == Ok(out)
    ensures RowsOfHouseholds(RowsOf(out), OneRow(resolved), [h], OracleRow(exposures, resolved))
  {
    hide OneRow, CandidateHouseholds, HotDecision, AttributeHousehold, DistinctCids, Raises, ExposuresAt,
         ConversionsAt;
    var one, row, rows := OneRow(resolved), OracleRow(exposures, resolved), RowsOf(out);
    var cs := ConversionsAt(one, h);
    AttributeMany(ExposuresAt(exposures, h), cs, HOT_WINDOW, CandidateHouseholds(resolved));
    OneRowDistinct(resolved);
    ConversionsAtDistinct(one, h);
    forall i | 0 <= i < |out|
      ensures rows[i].res == cs[i] && cs[i] in one && cs[i].householdId == h && rows[i] == row(cs[i])
    {
      assert cs[i] in cs;
      ConversionsAtIs(one, h, cs[i]);
      DecisionKeepsConversion(ExposuresAt(exposures, h), cs[i], HOT_WINDOW,
                              CandidateSetOf(cs[i], CandidateHouseholds(resolved)));
    }
    forall a ensures a in rows <==> a.res in one && a.res.householdId in [h] && a == row(a.res) {
      if a.res in one && a.res.householdId == h && a == row(a.res) {
        ConversionsAtIs(one, h, a.res);
        var i :| 0 <= i < |cs| && cs[i] == a.res;
        assert rows[i] == a;
      }
    }
    RowsInOrder(rows, cs);
  }

  lemma RowsInOrder(rows: seq<Attributed>, cs: seq<Resolved>)
    requires |rows| == |cs| && DistinctCids(cs) && forall i :: 0 <= i < |rows| ==> rows[i].res == cs[i]
    ensures NoTies(rows, RowLe)
  {
  }

  /** The non-evicting oracle. */
  method Attribute(exposures: seq<Exposure>, resolved: seq<Resolved>) returns (r: Result<seq<Attributed>>)
    ensures r.ValueError? <==> RunRaises(resolved)
    ensures r.Ok? ==> r.value == OracleOutput(exposures, resolved)
  {
    hide ExposuresAt, ConversionsAt, Raises, OracleRow, OneRow, Tabulate, DistinctCids, AttributeHousehold,
         HotDecision;
    hide RowsOfHouseholds, CandidateHouseholds, NoTies;
    var expByHousehold := GroupExposures(exposures);
    var candidates := CandidateHouseholdsByConversion(resolved);
    var one := OneRowPerConversion(resolved);
    var keys, resByHousehold := GroupConversions(one);
    ghost var row := OracleRow(exposures, resolved);
    OneRowDistinct(resolved);
    NoRowsYet(one, row);
    var rows: seq<Attributed> := [];
    for i := 0 to |keys|
      invariant RowsOfHouseholds(rows, one, keys[..i], row)
      invariant forall j, c :: 0 <= j < i && c in ConversionsAt(one, keys[j]) ==> !Raises(c, candidates)
    {
      var h := keys[i];
      assert h in keys && resByHousehold[h] == Bucket(resByHousehold, h);
      AttributeMany(Bucket(expByHousehold, h), resByHousehold[h], HOT_WINDOW, candidates);
      match AttributeHousehold(Bucket(expByHousehold, h), resByHousehold[h], HOT_WINDOW, candidates)
      case ValueError =>
        var c :| c in resByHousehold[h] && Raises(c, candidates);
        ConversionsAtIs(one, h, c);
        return ValueError;
      case Ok(out) =>
        HouseholdOracleRows(exposures, resolved, h, out);
        assert keys[..i + 1] == keys[..i] + [h];
        NextHousehold(rows, RowsOf(out), one, keys[..i], h, row);
        rows := rows + RowsOf(out);
    }
    forall c | c in one ensures c.householdId in keys && !Raises(c, candidates) {
      ConversionsAtIs(one, c.householdId, c);
      assert Bucket(resByHousehold, c.householdId) != [];
      var j :| 0 <= j < |keys| && keys[j] == c.householdId;
    }
    assert keys[..|keys|] == keys;
    OracleRowKeepsConversion(exposures, resolved);
    OracleTable(rows, one, keys, row, exposures, resolved);
    r := Ok(Sort(rows, RowLe));
  }

  lemma OracleTable(rows: seq<Attributed>, one: seq<Resolved>, keys: seq<Id>, row: Resolved -> Attributed,
                    exposures: seq<Exposure>, resolved: seq<Resolved>)
    requires one == OneRow(resolved) && row == OracleRow(exposures, resolved)
    requires RowsOfHouseholds(rows, one, keys, row) && forall c :: c in one ==> c.householdId in keys
    ensures Sort(rows, RowLe) == OracleOutput(exposures, resolved)
  {
    OracleRowKeepsConversion(exposures, resolved);
    OneRowDistinct(resolved);
    SortedIntoTable(rows, one, row);
  }
}
