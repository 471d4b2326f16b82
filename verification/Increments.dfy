/** Loads of chosen days one after the other, each with its own refresh
    (orchestration/run.py:71-111, 158-160): over any lake, exactly when the rollup that the
    last of them leaves is the rebuild. */
module Increments {
  import opened Rows
  import opened Orders
  import opened Collapse
  import opened Lateness
  import opened Lake
  import opened Rollup
  import opened Serving
  import opened Pipeline
  import opened Warehouse
  import opened Jobs

  ghost function LoadsInTurn(s: State, loads: seq<set<int>>): State {
    if loads == [] then s else LoadJob(LoadsInTurn(s, Init(loads)), Last(loads))
  }

  function DaysLoaded(loads: seq<set<int>>): set<int> {
    if loads == [] then {} else DaysLoaded(Init(loads)) + Last(loads)
  }

  /** What the lake has to aggregate on these days: their exposures, and the credits of their
      current rows that name one of those. */
  ghost function ItemsOfDays(s: State, days: set<int>): set<Item> {
    Joined(set a | a in ReadCurrent(s.lakeRows) && a.Day() in days, set e | e in s.lakeExposures && EventDay(e) in days)
  }

  /** Something is stamped above everything that was there before. */
  ghost predicate Rises(before: set<Item>, after: set<Item>) {
    exists x :: x in after && forall y :: y in before ==> y.Stamp() < x.Stamp()
  }

  /** The last load that changed what the hour aggregates brought a stamp above all earlier. */
  ghost predicate LastChangeRises(s: State, loads: seq<set<int>>, k: Key) {
    loads == [] ||
    var before, after := ItemsAt(ItemsOfDays(s, DaysLoaded(Init(loads))), k),
      ItemsAt(ItemsOfDays(s, DaysLoaded(loads)), k);
    if before == after then LastChangeRises(s, Init(loads), k) else Rises(before, after)
  }

  ghost predicate LastChangesRise(s: State, loads: seq<set<int>>) { forall k :: LastChangeRises(s, loads, k) }

  // ---------- what holds between two loads ----------

  /** Every rollup row was the rebuilt row of its key at some time. */
  ghost predicate Past(t: State) { forall h :: h in t.hourly ==> PastRow(t, h) }

  ghost predicate PastRow(t: State, h: Hourly) {
    exists group :: group != {} && group <= ItemsAt(ItemsOf(t), h.key) && h == RowOf(h.key, group)
  }

  ghost predicate Kept(t: State) {
    Recording(t, Open({}, {})) && Stamped(t) && DirtyNow(t) == {} && Past(t)
  }

  /** The tables hold exactly what the lake has on these days. */
  ghost predicate Holds(s: State, days: set<int>, t: State) {
    && t.lakeExposures == s.lakeExposures && t.lakeRows == s.lakeRows
    && (forall e :: e in t.exposures <==> e in s.lakeExposures && EventDay(e) in days)
    && (forall a :: a in t.rows <==> CurrentOf(s.lakeRows, a.Cid()) == Some(a) && a.Day() in days)
  }

  /** Readers see the rebuilt row of the key, and no other. */
  ghost predicate Right(t: State, k: Key) {
    forall h: Hourly :: h.key == k ==> (h in FinalHourly(t.hourly) <==> h in Rebuild(ItemsOf(t)))
  }

  lemma ExactIsRight(t: State)
    requires forall k :: Right(t, k)
    ensures Exact(t)
  {
    hide ItemsOf, Rebuild, Final;
    forall h ensures h in FinalHourly(t.hourly) <==> h in Rebuild(ItemsOf(t)) { assert Right(t, h.key); }
  }

  lemma RightWhereExact(t: State, k: Key)
    requires Exact(t)
    ensures Right(t, k)
  {
    hide ItemsOf, Rebuild, Final;
  }

  lemma HeldItems(s: State, days: set<int>, t: State)
    requires Holds(s, days, t) && FromLake(t)
    ensures ItemsOf(t) == ItemsOfDays(s, days)
  {
    hide CurrentOf, ReadCurrent, UniqueExposures, Versioned, ItemsOf, Joined;
    ReadCurrentIs(s.lakeRows);
    var rows := set a | a in ReadCurrent(s.lakeRows) && a.Day() in days;
    var exposures := set e | e in s.lakeExposures && EventDay(e) in days;
    forall x ensures x in ItemsOf(t) <==> x in ItemsOfDays(s, days) {
      ItemOfState(t, x);
      JoinedIs(rows, exposures, x);
    }
  }

  // ---------- one load and its refresh ----------

  lemma LoadsAdd(t: State, more: set<int>)
    requires FromLake(t)
    ensures var u := RunOf(t, LoadSteps(SortedIds(more)));
      && FromLake(u) && t.exposures <= u.exposures && t.rows <= u.rows
      && t.dirty <= u.dirty && u.refreshed == t.refreshed && u.hourly == t.hourly
  {
    hide RunOf, LoadSteps, OnlyLoads, CurrentOf, FromLake;
    LoadStepsAre(SortedIds(more));
    LoadedBy(t, LoadSteps(SortedIds(more)));
  }

  lemma LoadsBring(s: State, days: set<int>, t: State, more: set<int>)
    requires Holds(s, days, t) && FromLake(t)
    ensures Holds(s, days + more, RunOf(t, LoadSteps(SortedIds(more))))
  {
    hide RunOf, LoadSteps, OnlyLoads, CurrentOf, FromLake, DayOf;
    var steps := LoadSteps(SortedIds(more));
    var u := RunOf(t, steps);
    LoadStepsAre(SortedIds(more));
    LoadedBy(t, steps);
    forall e ensures e in u.exposures <==> e in s.lakeExposures && EventDay(e) in days + more {
      assert LoadExposures(EventDay(e)) in steps <==> EventDay(e) in more;
    }
    forall a ensures a in u.rows <==> CurrentOf(s.lakeRows, a.Cid()) == Some(a) && a.Day() in days + more {
      assert LoadRows(a.Day()) in steps <==> a.Day() in more;
    }
  }

  /** What the refresh finds. */
  lemma LoadGrows(s: State, days: set<int>, t: State, more: set<int>) returns (u: State)
    requires Kept(t) && Holds(s, days, t) && more != {}
    ensures LoadJob(t, more) == Next(u, Refresh) && Recording(u, Open({}, {})) && Holds(s, days + more, u)
    ensures ItemsOf(t) <= ItemsOf(u) && t.dirty <= u.dirty && u.refreshed == t.refreshed && u.hourly == t.hourly
  {
    hide RunOf, LoadSteps, FromLake, Backed, Covered, ItemsOf, OnlyLoads, Stamped, DirtyNow, Past, PossibleRun,
         OpenOf, Holds, Next;
    var steps := LoadSteps(SortedIds(more));
    u := RunOf(t, steps);
    LoadStepsAre(SortedIds(more));
    LoadsPossible(t, steps, Open({}, {}));
    RunKeepsRecording(t, steps, Open({}, {}));
    LoadsAdd(t, more);
    LoadsBring(s, days, t, more);
    ItemsGrow(t, u);
  }

  lemma RefreshKeeps(t: State, u: State)
    requires Kept(t) && Recording(u, Open({}, {})) && ItemsOf(t) <= ItemsOf(u)
    requires t.dirty <= u.dirty && u.refreshed == t.refreshed && u.hourly == t.hourly
    ensures Kept(Next(u, Refresh)) && ItemsOf(Next(u, Refresh)) == ItemsOf(u)
  {
    hide ItemsOf, Backed, Covered, FromLake, DirtyNow, Recomputed, RowOf, RowAt;
    var v := Next(u, Refresh);
    assert Stamped(u);
    RefreshKeepsStamped(u);
    RefreshCleans(u);
    StepKeepsRecording(u, Refresh, Open({}, {}));
    SameItems(u, v);
    forall h | h in v.hourly ensures PastRow(v, h) {
      if h in t.hourly {
        assert PastRow(t, h);
        var group :| group != {} && group <= ItemsAt(ItemsOf(t), h.key) && h == RowOf(h.key, group);
        assert ItemsAt(ItemsOf(t), h.key) <= ItemsAt(ItemsOf(v), h.key);
      } else {
        RecomputedIs(u, h);
        RowAtIs(u, h.key);
      }
    }
  }

  /** A past row is no newer than the key was then. */
  lemma PastIsOlder(t: State, h: Hourly)
    requires PastRow(t, h)
    ensures ItemsAt(ItemsOf(t), h.key) != {} && h.reportedAt <= MaxStamp(ItemsAt(ItemsOf(t), h.key))
  {
    hide ItemsOf, MaxStamp, Sum;
    var group :| group != {} && group <= ItemsAt(ItemsOf(t), h.key) && h == RowOf(h.key, group);
    MaxStampIs(group);
    MaxStampIs(ItemsAt(ItemsOf(t), h.key));
  }

  /** What the refresh adds at a key. */
  lemma AddedAt(u: State, h: Hourly)
    ensures h in Next(u, Refresh).hourly <==>
            h in u.hourly || ((exists d :: d in DirtyNow(u) && d.key == h.key) && RowAt(u, h.key) == Some(h))
  {
    hide ItemsOf, RowAt, Recomputed, DirtyNow;
    RecomputedIs(u, h);
  }

  /** A key whose stamp did not move keeps the rows that it has. */
  lemma UnmovedRows(t: State, u: State, k: Key)
    requires Kept(t) && Recording(u, Open({}, {})) && u.refreshed == t.refreshed && u.hourly == t.hourly
    requires RowAt(u, k).Some? ==> RowAt(t, k).Some? && RowAt(t, k).value.reportedAt == RowAt(u, k).value.reportedAt
    ensures forall h: Hourly :: h.key == k ==> (h in Next(u, Refresh).hourly <==> h in t.hourly)
    ensures forall h: Hourly :: h.key == k ==>
        (h in FinalHourly(Next(u, Refresh).hourly) <==> h in FinalHourly(t.hourly))
  {
    hide ItemsOf, RowAt, RowOf, DirtyNow, Recording, Past, Stamped, Next;
    if RowAt(u, k).Some? { UnmovedIsClean(t, u, k); }
    forall h: Hourly | h.key == k ensures h in Next(u, Refresh).hourly <==> h in t.hourly { AddedAt(u, h); }
  }

  lemma SameRebuild(t: State, v: State, k: Key)
    requires ItemsAt(ItemsOf(t), k) == ItemsAt(ItemsOf(v), k)
    ensures forall h: Hourly :: h.key == k ==> (h in Rebuild(ItemsOf(t)) <==> h in Rebuild(ItemsOf(v)))
  {
    hide ItemsOf, Rebuild, RowOf;
    forall h: Hourly | h.key == k ensures h in Rebuild(ItemsOf(t)) <==> h in Rebuild(ItemsOf(v)) {
      RebuildIs(ItemsOf(t), h);
      RebuildIs(ItemsOf(v), h);
    }
  }

  lemma UnchangedKey(t: State, u: State, k: Key)
    requires Kept(t) && Recording(u, Open({}, {})) && u.refreshed == t.refreshed && u.hourly == t.hourly
    requires ItemsAt(ItemsOf(t), k) == ItemsAt(ItemsOf(u), k)
    ensures Right(Next(u, Refresh), k) <==> Right(t, k)
  {
    hide ItemsOf, RowOf, Kept, Recording, Final, Rebuild, Next;
    assert RowAt(t, k) == RowAt(u, k);
    UnmovedRows(t, u, k);
    RefreshFrame(u);
    SameItems(u, Next(u, Refresh));
    SameRebuild(t, Next(u, Refresh), k);
  }

  lemma LostKey(t: State, u: State, k: Key)
    requires Kept(t) && Recording(u, Open({}, {})) && u.refreshed == t.refreshed && u.hourly == t.hourly
    requires ItemsOf(t) <= ItemsOf(u) && ItemsAt(ItemsOf(t), k) != ItemsAt(ItemsOf(u), k)
    requires !Rises(ItemsAt(ItemsOf(t), k), ItemsAt(ItemsOf(u), k))
    ensures !Right(Next(u, Refresh), k)
  {
    hide ItemsOf, RowOf, Recording, Final, Rebuild, Next, MaxStamp, Kept, RowAt, Rises;
    var before, after := ItemsAt(ItemsOf(t), k), ItemsAt(ItemsOf(u), k);
    assert before <= after;
    NothingLeft(after, before);
    var z := Member(after - before);
    SameMax(before, after, z);
    RowAtIs(t, k);
    RowAtIs(u, k);
    UnmovedRows(t, u, k);
    RefreshFrame(u);
    SameItems(u, Next(u, Refresh));
    var row := RowOf(k, after);
    RowKey(k, after);
    RebuildIs(ItemsOf(u), row);
    NotPast(t, k, after, z);
    FinalIsPart(Next(u, Refresh).hourly, row);
  }

  /** The rebuilt row of a group that grew was never computed before. */
  lemma NotPast(t: State, k: Key, after: set<Item>, z: Item)
    requires Kept(t) && ItemsAt(ItemsOf(t), k) <= after && z in after && z !in ItemsAt(ItemsOf(t), k)
    ensures RowOf(k, after) !in t.hourly
  {
    hide ItemsOf, RowOf, Recording, Stamped, DirtyNow;
    forall h | h in t.hourly && h.key == k ensures h != RowOf(k, after) {
      assert PastRow(t, h);
      var group :| group != {} && group <= ItemsAt(ItemsOf(t), h.key) && h == RowOf(h.key, group);
      RowsCount(k, group, after, z);
    }
    RowKey(k, after);
  }

  lemma FinalIsPart(rows: set<Hourly>, h: Hourly)
    ensures h in FinalHourly(rows) ==> h in rows
  {
  }

  lemma NotAbove(before: set<Item>, after: set<Item>, x: Item) returns (y: Item)
    requires !Rises(before, after) && x in after
    ensures y in before && x.Stamp() <= y.Stamp()
  {
    y :| y in before && x.Stamp() <= y.Stamp();
  }

  lemma SameMax(before: set<Item>, after: set<Item>, z: Item)
    requires before <= after && z in after && !Rises(before, after)
    ensures before != {} && MaxStamp(before) == MaxStamp(after)
  {
    hide MaxStamp, Rises;
    var w := NotAbove(before, after, z);
    MaxStampIs(before);
    MaxStampIs(after);
    var x :| x in after && x.Stamp() == MaxStamp(after);
    var y := NotAbove(before, after, x);
    assert y in after;
  }

  lemma RisenKey(t: State, u: State, k: Key)
    requires Kept(t) && Recording(u, Open({}, {})) && u.refreshed == t.refreshed && u.hourly == t.hourly
    requires ItemsOf(t) <= ItemsOf(u) && Rises(ItemsAt(ItemsOf(t), k), ItemsAt(ItemsOf(u), k))
    ensures Right(Next(u, Refresh), k)
  {
    hide ItemsOf, RowOf, Final, Rebuild, Next, MaxStamp, DirtyNow, RowAt, Backed, Covered, FromLake;
    var v, before, after := Next(u, Refresh), ItemsAt(ItemsOf(t), k), ItemsAt(ItemsOf(u), k);
    var x :| x in after && forall y :: y in before ==> y.Stamp() < x.Stamp();
    RowAtIs(u, k);
    MaxStampIs(after);
    var row := RowAt(u, k).value;
    RisenIsDirty(t, u, k, x);
    AddedAt(u, row);
    RefreshFrame(u);
    SameItems(u, v);
    forall h: Hourly | h in v.hourly && h.key == k && h != row ensures h.reportedAt < row.reportedAt {
      AddedAt(u, h);
      assert PastRow(t, h);
      PastIsOlder(t, h);
      MaxStampIs(before);
    }
    forall h: Hourly | h.key == k ensures h in FinalHourly(v.hourly) <==> h in Rebuild(ItemsOf(v)) {
      RebuildIs(ItemsOf(u), h);
      OnlyNewest(v.hourly, row, h);
    }
  }

  /** The one row of the highest version is what `FINAL` keeps of a key. */
  lemma OnlyNewest(rows: set<Hourly>, row: Hourly, h: Hourly)
    requires row in rows && h.key == row.key
    requires forall q :: q in rows && q.key == row.key && q != row ==> q.reportedAt < row.reportedAt
    ensures h in FinalHourly(rows) <==> h == row
  {
  }

  lemma RisenIsDirty(t: State, u: State, k: Key, x: Item)
    requires Kept(t) && Recording(u, Open({}, {})) && u.refreshed == t.refreshed
    requires x in ItemsAt(ItemsOf(u), k) && forall y :: y in ItemsAt(ItemsOf(t), k) ==> y.Stamp() < x.Stamp()
    ensures exists d :: d in DirtyNow(u) && d.key == k
  {
    hide ItemsOf, RowOf, MaxStamp, DirtyKeys, RowAt, Covered, FromLake, Past;
    RowAtIs(u, k);
    MaxStampIs(ItemsAt(ItemsOf(u), k));
    var d := Stamp(k, RowAt(u, k).value.reportedAt);
    DirtyIsLatest(u, k);
    DirtyKeysAre(u.dirty, u.refreshed);
    forall c | c in t.dirty && c.key == k ensures c.version < x.Stamp() {
      assert HasRow(ItemsOf(t), c);
      var y :| y in ItemsOf(t) && y.Key() == c.key && c.version <= y.Stamp();
      assert y in ItemsAt(ItemsOf(t), k);
    }
    assert d in DirtyNow(u);
  }

  // ---------- exactly when ----------

  /** Over any lake, with the tables emptied first, whatever days are loaded in whatever order
      and number, a refresh after each load: the rollup is exact in the end if and only if, in
      every campaign hour, the last load that changed what it aggregates brought a stamp above
      all that were there. Whether earlier changes did is of no consequence. */
  lemma LoadsExactIff(s: State, loads: seq<set<int>>)
    requires Unloaded(s)
    ensures Exact(LoadsInTurn(s, loads)) <==> LastChangesRise(s, loads)
  {
    hide Unloaded, Exact, Right, LastChangeRises, LoadsInTurn, Kept, Holds;
    Through(s, loads);
    var t := LoadsInTurn(s, loads);
    if Exact(t) {
      forall k ensures LastChangeRises(s, loads, k) { RightWhereExact(t, k); }
    } else if LastChangesRise(s, loads) {
      forall k ensures Right(t, k) { assert LastChangeRises(s, loads, k); }
      ExactIsRight(t);
    }
  }

  lemma {:induction false} Through(s: State, loads: seq<set<int>>)
    requires Unloaded(s)
    ensures Kept(LoadsInTurn(s, loads)) && Holds(s, DaysLoaded(loads), LoadsInTurn(s, loads))
    ensures forall k :: Right(LoadsInTurn(s, loads), k) <==> LastChangeRises(s, loads, k)
  {
    hide Unloaded, Right, Kept, Holds, LoadJob, Next, ItemsOf, ItemsOfDays, Rises, Recording;
    if loads == [] {
      BeforeAny(s);
    } else {
      var t, more := LoadsInTurn(s, Init(loads)), Last(loads);
      Through(s, Init(loads));
      KeptIsFromLake(t);
      HeldItems(s, DaysLoaded(Init(loads)), t);
      if more == {} {
        NoLoad(t);
        assert DaysLoaded(loads) == DaysLoaded(Init(loads));
      } else {
        var u := LoadGrows(s, DaysLoaded(Init(loads)), t, more);
        var v := Next(u, Refresh);
        RefreshKeeps(t, u);
        FromRecording(u);
        HeldItems(s, DaysLoaded(loads), u);
        HoldsAfterRefresh(s, DaysLoaded(loads), u);
        forall k ensures Right(v, k) <==> LastChangeRises(s, loads, k) {
          var before, after := ItemsAt(ItemsOf(t), k), ItemsAt(ItemsOf(u), k);
          if before == after {
            UnchangedKey(t, u, k);
          } else if Rises(before, after) {
            RisenKey(t, u, k);
          } else {
            LostKey(t, u, k);
          }
        }
      }
    }
  }

  lemma NoLoad(t: State)
    ensures LoadJob(t, {}) == t
  {
  }

  lemma KeptIsFromLake(t: State)
    requires Kept(t)
    ensures FromLake(t)
  {
  }

  lemma HoldsAfterRefresh(s: State, days: set<int>, u: State)
    requires Holds(s, days, u)
    ensures Holds(s, days, Next(u, Refresh))
  {
    hide CurrentOf;
    RefreshFrame(u);
  }

  lemma BeforeAny(s: State)
    requires Unloaded(s)
    ensures Kept(s) && Holds(s, {}, s) && forall k :: Right(s, k)
  {
    hide CurrentOf, Items;
    UnloadedInv(s);
    NothingToAggregate(s);
    assert FinalHourly({}) == {} && Rebuild({}) == {};
  }
}
