/** The migration that gives `report_snapshots` a version column (clickhouse/apply.py:51-113),
    statement by statement, with crashes after any statement, retries, copies that silently
    write only a part of the rows, and background merges of same-key twins at any time. */
module Migration {
  import opened Rows
  import opened Orders
  import opened Collapse

  /** A stored snapshot row; `metrics` stands for every column that is only copied. */
  datatype Row = Row(reportedAt: Time, campaign: Id, period: Id, metrics: seq<int>, version: Time)

  type SnapshotKey = (Time, Id, Id)

  function SortKey(r: Row): SnapshotKey { (r.reportedAt, r.campaign, r.period) }

  /** The rows of a table are a bag; which order they are listed in means nothing. */
  datatype Table = Table(versioned: bool, rows: seq<Row>)

  datatype Db = Db(live: Option<Table>, scratch: Option<Table>)

  function KeysOf(rows: seq<Row>): set<SnapshotKey> { set r | r in rows :: SortKey(r) }

  /** `* replace (reported_at as snapshot_version)`. */
  function Backfill(rows: seq<Row>): (copied: seq<Row>)
    ensures |copied| == |rows|
    ensures forall p :: 0 <= p < |rows| ==> copied[p] == rows[p].(version := rows[p].reportedAt)
  {
    seq(|rows|, p requires 0 <= p < |rows| => rows[p].(version := rows[p].reportedAt))
  }

  // ---------- the statements ----------

  /** Where a run of the migration stands: the last statement that it has executed. */
  datatype Pc = Idle | Guarded | Dropped | Altered | Created | Copied | CountedOld(oldRows: nat) | Checked | Exchanged

  datatype State = State(db: Db, pc: Pc)

  /** A copy that falls short raises nothing; a crash within one is a short copy and a crash. */
  datatype Step =
    | Guard            // read the engine; return if there is nothing to migrate
    | DropScratch
    | AddColumn
    | CreateScratch
    | CopyRows(part: seq<Row>)  // what was written, all of the rows or not
    | CountOld
    | CountNew         // count, compare, raise on a mismatch
    | Exchange
    | DropOld
    | Crash
    | MergeLive(drop: nat, keep: nat)
    | MergeScratch(drop: nat, keep: nat)

  /** A merge may drop a row beside a row of the same key: in a versioned table only one
      that is not newer, in a plain table either. */
  predicate MayMerge(t: Option<Table>, drop: nat, keep: nat) {
    && t.Some? && drop < |t.value.rows| && keep < |t.value.rows| && drop != keep
    && SortKey(t.value.rows[drop]) == SortKey(t.value.rows[keep])
    && (t.value.versioned ==> t.value.rows[drop].version <= t.value.rows[keep].version)
  }

  function Without<T>(rows: seq<T>, p: nat): seq<T>
    requires p < |rows|
  {
    rows[..p] + rows[p + 1..]
  }

  predicate NeedsMigration(db: Db) { db.live.Some? && !db.live.value.versioned }

  predicate Possible(s: State, step: Step) {
    match step
    case Guard => s.pc == Idle
    case DropScratch => s.pc == Guarded
    case AddColumn => s.pc == Dropped
    case CreateScratch => s.pc == Altered && s.db.scratch.None?
    case CopyRows(part) =>
      s.pc == Created && s.db.live.Some? && s.db.scratch.Some? &&
        multiset(part) <= multiset(Backfill(s.db.live.value.rows))
    case CountOld => s.pc == Copied && s.db.live.Some?
    case CountNew => s.pc.CountedOld? && s.db.scratch.Some?
    case Exchange => s.pc == Checked
    case DropOld => s.pc == Exchanged
    case Crash => true
    case MergeLive(drop, keep) => MayMerge(s.db.live, drop, keep)
    case MergeScratch(drop, keep) => MayMerge(s.db.scratch, drop, keep)
  }

  function Merged(t: Option<Table>, drop: nat): Option<Table>
    requires t.Some? && drop < |t.value.rows|
  {
    Some(t.value.(rows := Without(t.value.rows, drop)))
  }

  function Next(s: State, step: Step): State
    requires Possible(s, step)
  {
    match step
    case Guard => if NeedsMigration(s.db) then State(s.db, Guarded) else s
    case DropScratch => State(s.db.(scratch := None), Dropped)
    case AddColumn => State(s.db, Altered)  // a row without the column reads its default
    case CreateScratch => State(s.db.(scratch := Some(Table(true, []))), Created)
    case CopyRows(part) => State(s.db.(scratch := Some(Table(true, part))), Copied)
    case CountOld => State(s.db, CountedOld(|s.db.live.value.rows|))
    case CountNew => State(s.db, if s.pc.oldRows == |s.db.scratch.value.rows| then Checked else Idle)
    case Exchange => State(Db(s.db.scratch, s.db.live), Exchanged)
    case DropOld => State(s.db.(scratch := None), Idle)
    case Crash => State(s.db, Idle)
    case MergeLive(drop, _) => State(s.db.(live := Merged(s.db.live, drop)), s.pc)
    case MergeScratch(drop, _) => State(s.db.(scratch := Merged(s.db.scratch, drop)), s.pc)
  }

  predicate PossibleRun(s: State, steps: seq<Step>)
    decreases |steps|
  {
    steps == [] || (Possible(s, steps[0]) && PossibleRun(Next(s, steps[0]), steps[1..]))
  }

  function RunOf(s: State, steps: seq<Step>): State
    requires PossibleRun(s, steps)
    decreases |steps|
  {
    if steps == [] then s else RunOf(Next(s, steps[0]), steps[1..])
  }

  /** A stack that was never migrated, with or without the leftovers of earlier attempts. */
  function Legacy(rows: seq<Row>, scratch: Option<Table>): State { State(Db(Some(Table(false, rows)), scratch), Idle) }

  // ---------- where the rows come from ----------

  /** Only legacy rows: as they were, or, in a versioned table, with the backfilled version. */
  ghost predicate From(t: Table, legacy: seq<Row>) {
    forall r :: r in t.rows ==> r in (if t.versioned then Backfill(legacy) else legacy)
  }

  predicate HoldsCopy(pc: Pc) { pc == Copied || pc.CountedOld? || pc == Checked }

  /** What holds between any two statements of any attempt, whatever was copied. */
  ghost predicate Shape(s: State, legacy: seq<Row>) {
    && s.db.live.Some? && From(s.db.live.value, legacy)
    && (s.pc != Idle && s.pc != Exchanged ==> !s.db.live.value.versioned)
    && (s.pc in {Dropped, Altered} ==> s.db.scratch.None?)
    && (s.pc == Created ==> s.db.scratch.Some?)
    && (HoldsCopy(s.pc) ==> s.db.scratch.Some? && s.db.scratch.value.versioned && From(s.db.scratch.value, legacy))
    && (s.pc == Exchanged ==> s.db.live.value.versioned)
  }

  lemma WithoutIs<T>(rows: seq<T>, drop: nat)
    requires drop < |rows|
    ensures |Without(rows, drop)| == |rows| - 1 && forall r :: r in Without(rows, drop) ==> r in rows
    ensures forall p :: 0 <= p < |rows| && p != drop ==> Without(rows, drop)[if p < drop then p else p - 1] == rows[p]
    ensures multiset(Without(rows, drop)) <= multiset(rows)
  {
    assert rows == rows[..drop] + [rows[drop]] + rows[drop + 1..];
    forall p | 0 <= p < |rows| && p != drop ensures Without(rows, drop)[if p < drop then p else p - 1] == rows[p] {}
  }

  lemma PartIs<T(!new)>(part: seq<T>, whole: seq<T>)
    requires multiset(part) <= multiset(whole)
    ensures forall r :: r in part ==> r in whole
  {
    forall r | r in part ensures r in whole { assert r in multiset(part); }
  }

  lemma BackfillIs(rows: seq<Row>, legacy: seq<Row>)
    requires forall r :: r in rows ==> r in legacy
    ensures forall r :: r in Backfill(rows) ==> r in Backfill(legacy)
  {
    forall r | r in Backfill(rows) ensures r in Backfill(legacy) {
      var p :| 0 <= p < |rows| && Backfill(rows)[p] == r;
      assert rows[p] in rows;
      var q :| 0 <= q < |legacy| && legacy[q] == rows[p];
      assert Backfill(legacy)[q] == r;
    }
  }

  lemma StepKeepsShape(s: State, step: Step, legacy: seq<Row>)
    requires Shape(s, legacy) && Possible(s, step)
    ensures Shape(Next(s, step), legacy)
  {
    hide Backfill;
    match step
    case MergeLive(drop, keep) => WithoutIs(s.db.live.value.rows, drop);
    case MergeScratch(drop, keep) => WithoutIs(s.db.scratch.value.rows, drop);
    case CopyRows(part) =>
      PartIs(part, Backfill(s.db.live.value.rows));
      BackfillIs(s.db.live.value.rows, legacy);
    case _ =>
  }

  lemma {:induction false} RunKeepsShape(s: State, steps: seq<Step>, legacy: seq<Row>)
    requires Shape(s, legacy) && PossibleRun(s, steps)
    ensures Shape(RunOf(s, steps), legacy)
    decreases |steps|
  {
    hide Shape, Next, Possible;
    if steps != [] {
      StepKeepsShape(s, steps[0], legacy);
      RunKeepsShape(Next(s, steps[0]), steps[1..], legacy);
    }
  }

  /** A legacy row, versioned by its own `reported_at`. */
  ghost predicate IsBackfilled(r: Row, legacy: seq<Row>) {
    r.version == r.reportedAt && exists q :: q in legacy && r == q.(version := q.reportedAt)
  }

  /** Whatever short copies, crashes, retries and merges there were, the live table is there;
      until it is versioned it holds only legacy rows as they were, and then only legacy rows
      versioned by their own `reported_at`. */
  lemma OnlyLegacyRows(rows: seq<Row>, scratch: Option<Table>, steps: seq<Step>)
    requires PossibleRun(Legacy(rows, scratch), steps)
    ensures var live := RunOf(Legacy(rows, scratch), steps).db.live;
      live.Some? && forall r :: r in live.value.rows ==>
        if live.value.versioned then IsBackfilled(r, rows) else r in rows
  {
    hide RunOf, PossibleRun;
    RunKeepsShape(Legacy(rows, scratch), steps, rows);
    var t := RunOf(Legacy(rows, scratch), steps).db.live.value;
    forall r | t.versioned && r in t.rows ensures IsBackfilled(r, rows) {
      var p :| 0 <= p < |rows| && Backfill(rows)[p] == r;
      assert rows[p] in rows;
    }
  }

  // ---------- no key is lost ----------

  ghost predicate NoTwins(rows: seq<Row>) {
    forall p, q :: 0 <= p < q < |rows| ==> SortKey(rows[p]) != SortKey(rows[q])
  }

  /** When the count check tells every copy that lost a key: no two rows share a sort key, or
      all of them do. */
  ghost predicate CountSuffices(rows: seq<Row>) { NoTwins(rows) || |KeysOf(rows)| <= 1 }

  /** Every copy wrote every row. */
  ghost predicate WholeCopies(s: State, steps: seq<Step>)
    requires PossibleRun(s, steps)
    decreases |steps|
  {
    steps == [] ||
    ((steps[0].CopyRows? ==> IsWhole(s, steps[0].part)) && WholeCopies(Next(s, steps[0]), steps[1..]))
  }

  ghost predicate IsWhole(s: State, part: seq<Row>) {
    s.db.live.Some? && multiset(part) == multiset(Backfill(s.db.live.value.rows))
  }

  /** What is known of the keys; `whole` says that every copy so far wrote every row. */
  ghost predicate Keys(s: State, legacy: seq<Row>, whole: bool)
    requires Shape(s, legacy)
  {
    && KeysOf(s.db.live.value.rows) == KeysOf(legacy)
    && (NoTwins(legacy) ==> NoTwins(s.db.live.value.rows))
    && (HoldsCopy(s.pc) ==>
          && (whole ==> KeysOf(s.db.scratch.value.rows) == KeysOf(legacy))
          && (NoTwins(legacy) ==> NoTwins(s.db.scratch.value.rows)))
    && (s.pc.CountedOld? ==> |KeysOf(legacy)| <= s.pc.oldRows)
    && (s.pc == Checked ==> KeysOf(s.db.scratch.value.rows) == KeysOf(legacy))
  }

  lemma {:induction false} KeysCount(rows: seq<Row>)
    ensures |KeysOf(rows)| <= |rows|
    ensures NoTwins(rows) ==> |KeysOf(rows)| == |rows|
  {
    if rows != [] {
      KeysCount(Init(rows));
      assert rows == Init(rows) + [Last(rows)];
      assert KeysOf(rows) == KeysOf(Init(rows)) + {SortKey(Last(rows))};
      if NoTwins(rows) {
        forall r | r in Init(rows) ensures SortKey(r) != SortKey(Last(rows)) {
          var p :| 0 <= p < |Init(rows)| && Init(rows)[p] == r;
        }
      }
    }
  }

  lemma {:induction false} SubsetOfSameSize<T>(a: set<T>, b: set<T>)
    requires a <= b
    ensures |a| <= |b| && (|a| == |b| <==> a == b)
    decreases |b|
  {
    if a != {} {
      var x := Member(a);
      SubsetOfSameSize(a - {x}, b - {x});
      assert a == a - {x} + {x} && b == b - {x} + {x};
    }
  }

  lemma MergeKeepsKeys(rows: seq<Row>, drop: nat, keep: nat)
    requires drop < |rows| && keep < |rows| && drop != keep && SortKey(rows[drop]) == SortKey(rows[keep])
    ensures KeysOf(Without(rows, drop)) == KeysOf(rows)
    ensures !NoTwins(rows)
  {
    hide Without;
    WithoutIs(rows, drop);
    var after := Without(rows, drop);
    forall p | 0 <= p < |rows| ensures SortKey(rows[p]) in KeysOf(after) {
      var q := if p == drop then keep else p;
      var r := if q < drop then q else q - 1;
      assert after[r] == rows[q] && after[r] in after;
    }
    assert SortKey(rows[if drop < keep then drop else keep]) == SortKey(rows[if drop < keep then keep else drop]);
  }

  lemma BackfillKeys(rows: seq<Row>)
    ensures KeysOf(Backfill(rows)) == KeysOf(rows)
    ensures NoTwins(rows) ==> NoTwins(Backfill(rows))
  {
    forall r | r in Backfill(rows) ensures SortKey(r) in KeysOf(rows) {
      var p :| 0 <= p < |rows| && Backfill(rows)[p] == r;
      assert rows[p] in rows;
    }
    forall r | r in rows ensures SortKey(r) in KeysOf(Backfill(rows)) {
      var p :| 0 <= p < |rows| && rows[p] == r;
      assert Backfill(rows)[p] in Backfill(rows);
    }
  }

  lemma FromKeys(t: Table, legacy: seq<Row>)
    requires From(t, legacy)
    ensures KeysOf(t.rows) <= KeysOf(legacy)
  {
    BackfillKeys(legacy);
    forall r | r in t.rows ensures SortKey(r) in KeysOf(legacy) {
      assert SortKey(r) in KeysOf(if t.versioned then Backfill(legacy) else legacy);
    }
  }

  lemma TwiceIn<T>(s: seq<T>, p: nat, q: nat)
    requires p < q < |s| && s[p] == s[q]
    ensures multiset(s)[s[p]] >= 2
  {
    assert s == s[..q] + s[q..];
    assert s[..q][p] in s[..q] && s[q..][0] in s[q..];
    assert multiset(s)[s[p]] == multiset(s[..q])[s[p]] + multiset(s[q..])[s[p]];
  }

  lemma {:induction false} AtTwoPlaces<T>(s: seq<T>, x: T) returns (p: nat, q: nat)
    requires multiset(s)[x] >= 2
    ensures p < q < |s| && s[p] == x && s[q] == x
  {
    assert s == Init(s) + [Last(s)];
    if multiset(Init(s))[x] >= 2 {
      p, q := AtTwoPlaces(Init(s), x);
    } else {
      assert x in Init(s);
      p :| p < |Init(s)| && Init(s)[p] == x;
      q := |s| - 1;
    }
  }

  /** A part of a table has twins only if the table has. */
  lemma TwinsOfPart(part: seq<Row>, whole: seq<Row>, p: nat, q: nat)
    requires multiset(part) <= multiset(whole) && p < q < |part| && SortKey(part[p]) == SortKey(part[q])
    ensures !NoTwins(whole)
  {
    var x, y := part[p], part[q];
    PartIs(part, whole);
    assert x in part && y in part;
    if x == y {
      TwiceIn(part, p, q);
      assert multiset(part)[x] <= multiset(whole)[x];
      var k, l := AtTwoPlaces(whole, x);
      assert SortKey(whole[k]) == SortKey(whole[l]);
    } else {
      var k: nat :| k < |whole| && whole[k] == x;
      var l: nat :| l < |whole| && whole[l] == y;
      assert SortKey(whole[if k < l then k else l]) == SortKey(whole[if k < l then l else k]);
    }
  }

  lemma PartHasNoTwins(part: seq<Row>, whole: seq<Row>)
    requires multiset(part) <= multiset(whole) && NoTwins(whole)
    ensures NoTwins(part)
  {
    if p: nat, q: nat :| p < q < |part| && SortKey(part[p]) == SortKey(part[q]) {
      TwinsOfPart(part, whole, p, q);
    }
  }

  /** What the count check proves of a copy, whatever merged before and after it. */
  lemma CountCatchesShortCopies(rows: seq<Row>, copy: seq<Row>)
    requires CountSuffices(rows) && KeysOf(copy) <= KeysOf(rows) && (NoTwins(rows) ==> NoTwins(copy))
    ensures |KeysOf(rows)| <= |copy| <==> KeysOf(copy) == KeysOf(rows)
    ensures NoTwins(rows) ==> (|copy| == |rows| <==> KeysOf(copy) == KeysOf(rows))
  {
    KeysCount(rows);
    KeysCount(copy);
    SubsetOfSameSize(KeysOf(copy), KeysOf(rows));
    if !NoTwins(rows) && copy != [] {
      assert SortKey(copy[0]) in KeysOf(copy);
      AtLeastOne(KeysOf(copy), SortKey(copy[0]));
    }
  }

  lemma AtLeastOne<T>(s: set<T>, x: T)
    requires x in s
    ensures |s| >= 1
  {
  }

  lemma StepKeepsKeys(s: State, step: Step, legacy: seq<Row>, whole: bool)
    requires Shape(s, legacy) && Possible(s, step) && Shape(Next(s, step), legacy) && Keys(s, legacy, whole)
    requires CountSuffices(legacy) || whole
    requires whole && step.CopyRows? ==> IsWhole(s, step.part)
    ensures Keys(Next(s, step), legacy, whole)
    ensures step == Exchange ==> KeysOf(s.db.scratch.value.rows) == KeysOf(s.db.live.value.rows)
  {
    hide Backfill, KeysOf, NoTwins, Without, From, CountSuffices;
    var live, scratch := s.db.live, s.db.scratch;
    match step
    case MergeLive(drop, keep) => MergeKeepsTable(live.value, drop, keep);
    case MergeScratch(drop, keep) => MergeKeepsTable(scratch.value, drop, keep);
    case CopyRows(part) => CopyKeys(live.value.rows, part, legacy, whole);
    case CountOld => KeysCount(live.value.rows);
    case CountNew =>
      FromKeys(scratch.value, legacy);
      if !whole { CountCatchesShortCopies(legacy, scratch.value.rows); }
    case _ =>
  }

  lemma MergeKeepsTable(t: Table, drop: nat, keep: nat)
    requires MayMerge(Some(t), drop, keep)
    ensures KeysOf(Without(t.rows, drop)) == KeysOf(t.rows)
    ensures !NoTwins(t.rows)
  {
    MergeKeepsKeys(t.rows, drop, keep);
  }

  lemma CopyKeys(rows: seq<Row>, part: seq<Row>, legacy: seq<Row>, whole: bool)
    requires multiset(part) <= multiset(Backfill(rows)) && (NoTwins(legacy) ==> NoTwins(rows))
    requires whole ==> multiset(part) == multiset(Backfill(rows))
    ensures NoTwins(legacy) ==> NoTwins(part)
    ensures whole ==> KeysOf(part) == KeysOf(rows)
  {
    hide Backfill, NoTwins;
    BackfillKeys(rows);
    if NoTwins(rows) { PartHasNoTwins(part, Backfill(rows)); }
    if whole { SameElements(part, Backfill(rows)); }
  }

  lemma {:induction false} RunKeepsKeys(s: State, steps: seq<Step>, legacy: seq<Row>, whole: bool)
    requires Shape(s, legacy) && Keys(s, legacy, whole) && PossibleRun(s, steps)
    requires CountSuffices(legacy) || whole
    requires whole ==> WholeCopies(s, steps)
    ensures Shape(RunOf(s, steps), legacy) && Keys(RunOf(s, steps), legacy, whole)
    decreases |steps|
  {
    hide Shape, Keys, Next, Possible, CountSuffices, IsWhole;
    if steps != [] {
      StepKeepsShape(s, steps[0], legacy);
      StepKeepsKeys(s, steps[0], legacy, whole);
      RunKeepsKeys(Next(s, steps[0]), steps[1..], legacy, whole);
    }
  }

  ghost predicate KeysSurvive(rows: seq<Row>, end: State) {
    end.db.live.Some? && KeysOf(end.db.live.value.rows) == KeysOf(rows)
  }

  /** The columns that the tables are sorted by agree. */
  ghost predicate SameSnapshot(r: Row, q: Row) {
    r.reportedAt == q.reportedAt && r.campaign == q.campaign && r.period == q.period
  }

  /** What it means that the keys survive, on the fields of the rows. */
  lemma KeysSurviveMeaning(rows: seq<Row>, end: State)
    ensures KeysSurvive(rows, end) <==>
      && end.db.live.Some?
      && (forall r :: r in rows ==> exists q :: q in end.db.live.value.rows && SameSnapshot(r, q))
      && (forall q :: q in end.db.live.value.rows ==> exists r :: r in rows && SameSnapshot(r, q))
  {
    if end.db.live.Some? {
      var live := end.db.live.value.rows;
      forall a: seq<Row>, b: seq<Row> ensures KeysOf(a) <= KeysOf(b) <==>
          forall r :: r in a ==> exists q :: q in b && SameSnapshot(r, q)
      {
        KeysWithin(a, b);
      }
      assert KeysOf(live) == KeysOf(rows) <==> KeysOf(rows) <= KeysOf(live) && KeysOf(live) <= KeysOf(rows);
      assert forall r, q :: SameSnapshot(r, q) <==> SameSnapshot(q, r);
    }
  }

  lemma KeysWithin(a: seq<Row>, b: seq<Row>)
    ensures KeysOf(a) <= KeysOf(b) <==> forall r :: r in a ==> exists q :: q in b && SameSnapshot(r, q)
  {
    forall r, q ensures SortKey(r) == SortKey(q) <==> SameSnapshot(r, q) {}
    if KeysOf(a) <= KeysOf(b) {
      forall r | r in a ensures exists q :: q in b && SameSnapshot(r, q) {
        assert SortKey(r) in KeysOf(a) && SortKey(r) in KeysOf(b);
      }
    }
    if forall r :: r in a ==> exists q :: q in b && SameSnapshot(r, q) {
      forall k | k in KeysOf(a) ensures k in KeysOf(b) {
        var r :| r in a && SortKey(r) == k;
        var q :| q in b && SameSnapshot(r, q);
        assert SortKey(q) in KeysOf(b);
      }
    }
  }

  /** And where the count check suffices. */
  lemma CountSufficesMeaning(rows: seq<Row>)
    ensures CountSuffices(rows) <==>
      || (forall p, q :: 0 <= p < q < |rows| ==> !SameSnapshot(rows[p], rows[q]))
      || (forall p, q :: 0 <= p < q < |rows| ==> SameSnapshot(rows[p], rows[q]))
  {
    hide KeysOf;
    forall r, q ensures SortKey(r) == SortKey(q) <==> SameSnapshot(r, q) {}
    if |KeysOf(rows)| <= 1 {
      forall p, q | 0 <= p < q < |rows| ensures SameSnapshot(rows[p], rows[q]) {
        if !SameSnapshot(rows[p], rows[q]) { TwoKeys(rows, p, q); }
      }
    } else {
      KeysCount(rows);
      var b := AnotherKey(rows, 0);
      assert !SameSnapshot(rows[0], rows[b]);
    }
  }

  /** In a versioned table a merge never removes the newest row of a key. */
  lemma MergeKeepsNewest(t: Table, drop: nat, keep: nat, r: Row)
    requires MayMerge(Some(t), drop, keep) && t.versioned && r in t.rows
    ensures exists q :: q in Without(t.rows, drop) && SameSnapshot(r, q) && r.version <= q.version
  {
    hide Without;
    WithoutIs(t.rows, drop);
    var p :| 0 <= p < |t.rows| && t.rows[p] == r;
    var to := if p == drop then keep else p;
    var at := if to < drop then to else to - 1;
    assert Without(t.rows, drop)[at] == t.rows[to] && Without(t.rows, drop)[at] in Without(t.rows, drop);
  }

  /** Whatever crashes, retries and merges there were since the legacy stack, the live table
      keeps every sort key: always if every copy wrote every row, and even behind short
      copies where the count check suffices. */
  lemma LiveNeverLosesAKey(rows: seq<Row>, scratch: Option<Table>, steps: seq<Step>)
    requires PossibleRun(Legacy(rows, scratch), steps)
    requires CountSuffices(rows) || WholeCopies(Legacy(rows, scratch), steps)
    ensures KeysSurvive(rows, RunOf(Legacy(rows, scratch), steps))
  {
    hide RunOf, PossibleRun, CountSuffices, KeysOf;
    RunKeepsKeys(Legacy(rows, scratch), steps, rows, WholeCopies(Legacy(rows, scratch), steps));
  }

  // ---------- exactly when ----------

  /** No run from the legacy stack, whatever it copied, loses a key. */
  ghost predicate NeverLosesAKey(rows: seq<Row>) {
    forall scratch, steps :: PossibleRun(Legacy(rows, scratch), steps) ==>
      KeysSurvive(rows, RunOf(Legacy(rows, scratch), steps))
  }

  /** The check suffices exactly where no two rows share a key or all of them do: anywhere
      else some short copy and some merges lose a key behind equal counts. */
  lemma NeverLosesAKeyIff(rows: seq<Row>)
    ensures NeverLosesAKey(rows) <==> CountSuffices(rows)
  {
    hide KeysOf, KeysSurvive, PossibleRun, RunOf;
    if CountSuffices(rows) {
      forall scratch, steps | PossibleRun(Legacy(rows, scratch), steps)
        ensures KeysSurvive(rows, RunOf(Legacy(rows, scratch), steps))
      {
        LiveNeverLosesAKey(rows, scratch, steps);
      }
    } else {
      var p, q :| 0 <= p < q < |rows| && SortKey(rows[p]) == SortKey(rows[q]);
      var b := AnotherKey(rows, p);
      var steps := LosingRun(rows, p, q, b);
    }
  }

  lemma AnotherKey(rows: seq<Row>, p: nat) returns (b: nat)
    requires p < |rows| && |KeysOf(rows)| > 1
    ensures b < |rows| && SortKey(rows[b]) != SortKey(rows[p])
  {
    var k := SortKey(rows[p]);
    if forall r :: r in rows ==> SortKey(r) == k {
      SubsetOfSameSize(KeysOf(rows), {k});
    }
    var r :| r in rows && SortKey(r) != k;
    b :| b < |rows| && rows[b] == r;
  }

  /** Merge the other rows of `b`'s key into it, copy everything but `b`, and let twins merge
      before the count: the counts agree and `b`'s key is lost. */
  lemma {:induction false} LosingRun(rows: seq<Row>, p: nat, q: nat, b: nat) returns (steps: seq<Step>)
    requires p < |rows| && q < |rows| && p != q && b < |rows|
    requires SortKey(rows[p]) == SortKey(rows[q]) != SortKey(rows[b])
    ensures PossibleRun(Legacy(rows, None), steps) && !KeysSurvive(rows, RunOf(Legacy(rows, None), steps))
    decreases |rows|
  {
    hide KeysOf;
    if c: nat :| c < |rows| && c != b && SortKey(rows[c]) == SortKey(rows[b]) {
      WithoutIs(rows, c);
      MergeKeepsKeys(rows, c, b);
      var rest := LosingRun(Without(rows, c), if p < c then p else p - 1, if q < c then q else q - 1,
        if b < c then b else b - 1);
      steps := [MergeLive(c, b)] + rest;
      assert steps[1..] == rest && steps[0..] == steps;
      OneMore(Legacy(rows, None), steps, 0, RunOf(Legacy(Without(rows, c), None), rest));
    } else {
      var end := LosingAttempt(rows, p, q, b);
      steps := ShortAttempt(rows, p, q, b);
      LosesKey(rows, b);
    }
  }

  lemma LosesKey(rows: seq<Row>, b: nat)
    requires b < |rows| && forall c: nat :: c < |rows| && c != b ==> SortKey(rows[c]) != SortKey(rows[b])
    ensures SortKey(rows[b]) in KeysOf(rows) && SortKey(rows[b]) !in KeysOf(Backfill(Without(rows, b)))
  {
    BackfillKeys(Without(rows, b));
    assert rows[b] in rows;
    forall r | r in Without(rows, b) ensures SortKey(r) != SortKey(rows[b]) {
      var k: nat :| k < |Without(rows, b)| && Without(rows, b)[k] == r;
      assert r == rows[if k < b then k else k + 1];
    }
  }

  function ShortAttempt(rows: seq<Row>, p: nat, q: nat, b: nat): seq<Step>
    requires b < |rows|
  {
    [Guard, DropScratch, AddColumn, CreateScratch, CopyRows(Backfill(Without(rows, b))), MergeLive(p, q), CountOld,
      CountNew, Exchange]
  }

  lemma LosingAttempt(rows: seq<Row>, p: nat, q: nat, b: nat) returns (end: State)
    requires p < |rows| && q < |rows| && p != q && b < |rows| && SortKey(rows[p]) == SortKey(rows[q])
    ensures PossibleRun(Legacy(rows, None), ShortAttempt(rows, p, q, b))
    ensures end == RunOf(Legacy(rows, None), ShortAttempt(rows, p, q, b))
    ensures end.db.live == Some(Table(true, Backfill(Without(rows, b))))
  {
    hide Backfill, Without, PossibleRun, RunOf;
    var a, part := ShortAttempt(rows, p, q, b), Backfill(Without(rows, b));
    var live, left, copy := Some(Table(false, rows)), Some(Table(false, Without(rows, p))), Some(Table(true, part));
    end := State(Db(copy, left), Exchanged);
    ShortPart(rows, p, b);
    NoneLeft(end, a);
    OneMore(State(Db(left, copy), Checked), a, 8, end);
    OneMore(State(Db(left, copy), CountedOld(|part|)), a, 7, end);
    OneMore(State(Db(left, copy), Copied), a, 6, end);
    OneMore(State(Db(live, copy), Copied), a, 5, end);
    OneMore(State(Db(live, Some(Table(true, []))), Created), a, 4, end);
    Prepares(Legacy(rows, None), a, end);
  }

  /** The statements before the copy. */
  lemma Prepares(s: State, a: seq<Step>, end: State)
    requires s.pc == Idle && NeedsMigration(s.db) && |a| >= 4
    requires a[0] == Guard && a[1] == DropScratch && a[2] == AddColumn && a[3] == CreateScratch
    requires var created := State(Db(s.db.live, Some(Table(true, []))), Created);
      PossibleRun(created, a[4..]) && RunOf(created, a[4..]) == end
    ensures PossibleRun(s, a) && RunOf(s, a) == end
  {
    hide PossibleRun, RunOf;
    OneMore(State(Db(s.db.live, None), Altered), a, 3, end);
    OneMore(State(Db(s.db.live, None), Dropped), a, 2, end);
    OneMore(State(s.db, Guarded), a, 1, end);
    OneMore(s, a, 0, end);
    assert a[0..] == a;
  }

  lemma ShortPart(rows: seq<Row>, p: nat, b: nat)
    requires p < |rows| && b < |rows|
    ensures multiset(Backfill(Without(rows, b))) <= multiset(Backfill(rows))
    ensures |Backfill(Without(rows, b))| == |Without(rows, p)|
  {
    assert Backfill(Without(rows, b)) == Without(Backfill(rows), b);
    WithoutIs(Backfill(rows), b);
  }

  /** Backwards over a list of statements: `end` is where those from number `k` on lead. */
  lemma OneMore(s: State, steps: seq<Step>, k: nat, end: State)
    requires k < |steps| && Possible(s, steps[k])
    requires PossibleRun(Next(s, steps[k]), steps[k + 1..]) && RunOf(Next(s, steps[k]), steps[k + 1..]) == end
    ensures PossibleRun(s, steps[k..]) && RunOf(s, steps[k..]) == end
  {
    assert steps[k..][0] == steps[k] && steps[k..][1..] == steps[k + 1..];
  }

  lemma NoneLeft(s: State, steps: seq<Step>)
    ensures PossibleRun(s, steps[|steps|..]) && RunOf(s, steps[|steps|..]) == s && steps[0..] == steps
  {
  }

  /** A table on which the check does not suffice: two twins and a row beside them. */
  lemma CountCanMissAShortCopy()
    ensures var a, b := Row(1, 1, 0, [5], 0), Row(1, 2, 0, [7], 0);
      !NeverLosesAKey([a, a, b])
  {
    hide KeysOf, NeverLosesAKey;
    var a, b := Row(1, 1, 0, [5], 0), Row(1, 2, 0, [7], 0);
    var rows := [a, a, b];
    assert SortKey(rows[0]) == SortKey(rows[1]) && SortKey(rows[2]) != SortKey(rows[0]);
    NeverLosesAKeyIff(rows);
    TwoKeys(rows, 0, 2);
  }

  lemma TwoKeys(rows: seq<Row>, p: nat, q: nat)
    requires p < |rows| && q < |rows| && SortKey(rows[p]) != SortKey(rows[q])
    ensures |KeysOf(rows)| > 1
  {
    assert rows[p] in rows && rows[q] in rows;
    SubsetOfSameSize({SortKey(rows[p]), SortKey(rows[q])}, KeysOf(rows));
  }

  // ---------- progress ----------

  /** What follows the guard. */
  function Statements(copied: seq<Row>): seq<Step> {
    [DropScratch, AddColumn, CreateScratch, CopyRows(copied), CountOld, CountNew, Exchange, DropOld]
  }

  function OneAttempt(copied: seq<Row>): seq<Step> { [Guard] + Statements(copied) }

  /** Between attempts, whatever an earlier one left behind, an attempt that copies every row
      and neither crashes nor is disturbed by a merge completes: the live table is versioned
      and holds exactly the backfilled rows, and no scratch table is left. */
  lemma AnAttemptCompletes(s: State)
    requires s.pc == Idle && NeedsMigration(s.db)
    ensures var copied := Backfill(s.db.live.value.rows);
      PossibleRun(s, OneAttempt(copied)) &&
        RunOf(s, OneAttempt(copied)) == State(Db(Some(Table(true, copied)), None), Idle)
  {
    hide Backfill, PossibleRun, RunOf;
    var rows := s.db.live.value.rows;
    var a := OneAttempt(Backfill(rows));
    var live, copy := Some(Table(false, rows)), Some(Table(true, Backfill(rows)));
    var end := State(Db(copy, None), Idle);
    assert |Backfill(rows)| == |rows|;
    NoneLeft(end, a);
    OneMore(State(Db(copy, live), Exchanged), a, 8, end);
    OneMore(State(Db(live, copy), Checked), a, 7, end);
    OneMore(State(Db(live, copy), CountedOld(|rows|)), a, 6, end);
    OneMore(State(Db(live, copy), Copied), a, 5, end);
    OneMore(State(Db(live, Some(Table(true, []))), Created), a, 4, end);
    Prepares(s, a, end);
  }

  // ---------- the migration as it is written ----------

  predicate OnlyMerges(steps: seq<Step>) { forall x :: x in steps ==> x.MergeLive? || x.MergeScratch? }

  /** What the storage engine merges before each of the eight statements. */
  predicate AreMerges(merges: seq<seq<Step>>) { |merges| == 8 && forall k :: 0 <= k < 8 ==> OnlyMerges(merges[k]) }

  /** The statements from number `from` up to `to`, each after the merges that precede it. */
  function Woven(statements: seq<Step>, merges: seq<seq<Step>>, from: nat, to: nat): seq<Step>
    requires from <= to <= |statements| == |merges|
    decreases |merges| - from
  {
    if from == to then [] else merges[from] + ([statements[from]] + Woven(statements, merges, from + 1, to))
  }

  /** After the guard: an attempt up to its count check, and the rest of one that passed it. */
  function Trial(copied: seq<Row>, merges: seq<seq<Step>>): seq<Step>
    requires |merges| == 8
  {
    Woven(Statements(copied), merges, 0, 6)
  }

  function Rest(copied: seq<Row>, merges: seq<seq<Step>>): seq<Step>
    requires |merges| == 8
  {
    Woven(Statements(copied), merges, 6, 8)
  }

  /** Statement `k` with the merges before it is possible, and what it leaves. */
  lemma WovenStep(s: State, statements: seq<Step>, merges: seq<seq<Step>>, k: nat, to: nat)
    requires k < to <= |statements| == |merges| && PossibleRun(s, Woven(statements, merges, k, to))
    ensures PossibleRun(s, merges[k])
    ensures var t := RunOf(s, merges[k]);
      && Possible(t, statements[k]) && PossibleRun(Next(t, statements[k]), Woven(statements, merges, k + 1, to))
      && RunOf(s, Woven(statements, merges, k, to)) ==
        RunOf(Next(t, statements[k]), Woven(statements, merges, k + 1, to))
  {
    hide Next, Possible;
    var rest := Woven(statements, merges, k + 1, to);
    RunSplits(s, merges[k], [statements[k]] + rest);
    assert ([statements[k]] + rest)[1..] == rest;
  }

  lemma WovenDone(s: State, statements: seq<Step>, merges: seq<seq<Step>>, n: nat)
    requires n <= |statements| == |merges|
    ensures PossibleRun(s, Woven(statements, merges, n, n)) && RunOf(s, Woven(statements, merges, n, n)) == s
  {
  }

  lemma {:induction false} RunSplits(s: State, a: seq<Step>, b: seq<Step>)
    ensures PossibleRun(s, a + b) <==> PossibleRun(s, a) && PossibleRun(RunOf(s, a), b)
    ensures PossibleRun(s, a + b) ==> RunOf(s, a + b) == RunOf(RunOf(s, a), b)
    decreases |a|
  {
    hide Next, Possible;
    if a == [] {
      assert a + b == b;
    } else {
      assert (a + b)[0] == a[0] && (a + b)[1..] == a[1..] + b;
      if Possible(s, a[0]) { RunSplits(Next(s, a[0]), a[1..], b); }
    }
  }

  /** The environment does nothing else than merge, and what it copies are rows of the table. */
  predicate AttemptPossible(s: State, copied: seq<Row>, merges: seq<seq<Step>>)
    requires |merges| == 8
  {
    && PossibleRun(s, Trial(copied, merges))
    && (RunOf(s, Trial(copied, merges)).pc == Checked ==>
      PossibleRun(RunOf(s, Trial(copied, merges)), Rest(copied, merges)))
  }

  lemma AttemptKeepsKeys(s: State, copied: seq<Row>, merges: seq<seq<Step>>, legacy: seq<Row>)
    requires s.pc == Guarded && s.db.live == Some(Table(false, legacy))
    requires AreMerges(merges)
    requires AttemptPossible(s, copied, merges)
    requires CountSuffices(legacy) || WholeCopies(s, Trial(copied, merges))
    ensures var tried := RunOf(s, Trial(copied, merges));
      KeysSurvive(legacy, tried) && (tried.pc == Checked ==> KeysSurvive(legacy, RunOf(tried, Rest(copied, merges))))
  {
    hide RunOf, PossibleRun, CountSuffices, KeysOf, WholeCopies, Woven, NoTwins;
    var tried, whole := RunOf(s, Trial(copied, merges)), WholeCopies(s, Trial(copied, merges));
    RunKeepsKeys(s, Trial(copied, merges), legacy, whole);
    if tried.pc == Checked {
      RestCopiesNothing(copied, merges);
      NoCopies(tried, Rest(copied, merges));
      RunKeepsKeys(tried, Rest(copied, merges), legacy, whole);
    }
  }

  lemma RestCopiesNothing(copied: seq<Row>, merges: seq<seq<Step>>)
    requires AreMerges(merges)
    ensures forall x :: x in Rest(copied, merges) ==> !x.CopyRows?
  {
    var all := Statements(copied);
    assert Woven(all, merges, 8, 8) == [];
    assert Woven(all, merges, 7, 8) == merges[7] + ([DropOld] + []);
    assert Rest(copied, merges) == merges[6] + ([Exchange] + (merges[7] + ([DropOld] + [])));
    forall x | x in Rest(copied, merges) ensures !x.CopyRows? {
      assert x in merges[6] || x == Exchange || x in merges[7] || x == DropOld;
    }
  }

  lemma {:induction false} NoCopies(s: State, steps: seq<Step>)
    requires PossibleRun(s, steps) && forall x :: x in steps ==> !x.CopyRows?
    ensures WholeCopies(s, steps)
    decreases |steps|
  {
    hide Next, Possible;
    if steps != [] {
      assert steps[0] in steps && forall x :: x in steps[1..] ==> x in steps;
      NoCopies(Next(s, steps[0]), steps[1..]);
    }
  }

  datatype Outcome = Migrated | NothingToDo | Refused

  /** The two tables, and the statements run in order. What the storage engine wrote when it
      was told to copy, and what it merged before each statement, are parameters. */
  class SnapshotStore {
    var live: Option<Table>
    var scratch: Option<Table>

    ghost function At(pc: Pc): State reads this { State(Db(live, scratch), pc) }

    ghost function Kinds(): (Option<bool>, Option<bool>) reads this {
      (if live.Some? then Some(live.value.versioned) else None,
       if scratch.Some? then Some(scratch.value.versioned) else None)
    }

    /** The storage engine's own doing. */
    method Background(merges: seq<Step>, ghost pc: Pc)
      requires OnlyMerges(merges) && PossibleRun(At(pc), merges)
      modifies this
      ensures At(pc) == RunOf(old(At(pc)), merges) && Kinds() == old(Kinds())
    {
      hide Without;
      for i := 0 to |merges|
        invariant PossibleRun(At(pc), merges[i..]) && RunOf(At(pc), merges[i..]) == RunOf(old(At(pc)), merges)
        invariant Kinds() == old(Kinds())
      {
        assert merges[i..][0] == merges[i] && merges[i..][1..] == merges[i + 1..] && merges[i] in merges;
        match merges[i] {
          case MergeLive(drop, _) => live := Merged(live, drop);
          case MergeScratch(drop, _) => scratch := Merged(scratch, drop);
        }
      }
    }

    /** The statements from the guard to the count check. */
    method CopyAndCount(copied: seq<Row>, merges: seq<seq<Step>>) returns (matched: bool)
      requires AreMerges(merges) && NeedsMigration(Db(live, scratch)) && PossibleRun(At(Guarded), Trial(copied, merges))
      modifies this
      ensures At(if matched then Checked else Idle) == RunOf(old(At(Guarded)), Trial(copied, merges))
      ensures NeedsMigration(Db(live, scratch)) && scratch.Some? && scratch.value.versioned
    {
      hide Possible, Woven, PossibleRun, RunOf, Merged;
      ghost var all := Statements(copied);
      WovenStep(At(Guarded), all, merges, 0, 6);
      Background(merges[0], Guarded);
      scratch := None;
      WovenStep(At(Dropped), all, merges, 1, 6);
      Background(merges[1], Dropped);  // the new column reads its default
      WovenStep(At(Altered), all, merges, 2, 6);
      Background(merges[2], Altered);
      scratch := Some(Table(true, []));
      WovenStep(At(Created), all, merges, 3, 6);
      Background(merges[3], Created);
      scratch := Some(Table(true, copied));
      WovenStep(At(Copied), all, merges, 4, 6);
      Background(merges[4], Copied);
      var oldRows := |live.value.rows|;
      WovenStep(At(CountedOld(oldRows)), all, merges, 5, 6);
      Background(merges[5], CountedOld(oldRows));
      var newRows := |scratch.value.rows|;
      matched := oldRows == newRows;
      WovenDone(At(if matched then Checked else Idle), all, merges, 6);
    }

    /** What follows a count that matched. */
    method ExchangeAndDrop(copied: seq<Row>, merges: seq<seq<Step>>)
      requires AreMerges(merges) && PossibleRun(At(Checked), Rest(copied, merges)) && live.Some? && scratch.Some?
      modifies this
      ensures At(Idle) == RunOf(old(At(Checked)), Rest(copied, merges))
      ensures live.Some? && live.value.versioned == old(scratch).value.versioned && scratch == None
    {
      hide Possible, Woven, PossibleRun, RunOf, Merged;
      ghost var all := Statements(copied);
      WovenStep(At(Checked), all, merges, 6, 8);
      Background(merges[6], Checked);
      live, scratch := scratch, live;
      WovenStep(At(Exchanged), all, merges, 7, 8);
      Background(merges[7], Exchanged);
      scratch := None;
      WovenDone(At(Idle), all, merges, 8);
    }

    /** An attempt, statement by statement. A refusal leaves a stack that the next attempt
        migrates; and wherever the copy is whole, or the count check suffices, no key is lost. */
    method MigrateReportSnapshots(copied: seq<Row>, merges: seq<seq<Step>>) returns (outcome: Outcome)
      requires AreMerges(merges)
      requires NeedsMigration(Db(live, scratch)) ==> AttemptPossible(At(Guarded), copied, merges)
      modifies this
      ensures outcome == NothingToDo <==> !NeedsMigration(Db(old(live), old(scratch)))
      ensures outcome == NothingToDo ==> live == old(live) && scratch == old(scratch)
      ensures outcome == Refused ==> At(Idle) == RunOf(old(At(Guarded)), Trial(copied, merges))
      ensures outcome == Refused ==> NeedsMigration(Db(live, scratch))
      ensures outcome == Migrated ==>
                var tried := RunOf(old(At(Guarded)), Trial(copied, merges));
                tried.pc == Checked && At(Idle) == RunOf(tried, Rest(copied, merges))
      ensures outcome == Migrated ==> live.Some? && live.value.versioned && scratch == None
      ensures old(live).Some? &&
                (NeedsMigration(Db(old(live), old(scratch))) ==>
                   CountSuffices(old(live).value.rows) || WholeCopies(old(At(Guarded)), Trial(copied, merges)))
          ==> KeysSurvive(old(live).value.rows, At(Idle))
    {
      hide Possible, PossibleRun, RunOf, KeysOf, CountSuffices, WholeCopies, Trial, Rest;
      if live.None? || live.value.versioned {
        return NothingToDo;
      }
      ghost var start, rows := At(Guarded), live.value.rows;
      if CountSuffices(rows) || WholeCopies(start, Trial(copied, merges)) {
        AttemptKeepsKeys(start, copied, merges, rows);
      }
      var matched := CopyAndCount(copied, merges);
      if !matched {
        return Refused;
      }
      ExchangeAndDrop(copied, merges);
      return Migrated;
    }
  }
}
