/** Histories of jobs (orchestration/run.py, orchestration/replay.py, reconcile/reconcile.py):
    each job is the list of statements it executes, and may crash after any of them or
    within one. Which orders of jobs serve an exact rollup, and what the others do. */
module History {
  import opened Rows
  import opened Orders
  import opened Leaf
  import opened Collapse
  import opened Lateness
  import opened Dataflow
  import opened Parity
  import opened Lake
  import opened Recover
  import opened Protocol
  import opened Rollup
  import opened Serving
  import opened Pipeline
  import opened Warehouse
  import opened Jobs
  import opened Books
  import opened Partitions

  // ---------- jobs as lists of statements ----------

  datatype Job = HotJob | Reconciliation | Replay | Compaction(exposures: seq<Exposure>, rows: seq<Attributed>)

  /** The load and the refresh that end a job. */
  function Finish(days: set<int>): seq<Step> { if days == {} then [] else LoadSteps(SortedIds(days)) + [Refresh] }

  /** A reconciliation lands what it recovers from the state in which it starts, and a replay
      truncates one table after the other. */
  function JobSteps(i: Input, s: State, job: Job): seq<Step> {
    match job
    case HotJob => HotLandings(i) + Finish(AllDays(i))
    case Reconciliation => [LandRows(Landed(s))] + Finish(DaysOf(Landed(s)))
    case Replay => if ReplayDays(s) == {} then [] else Truncations() + Finish(ReplayDays(s))
    case Compaction(x, r) => [Compact(x, r)]
  }

  function HotLandings(i: Input): seq<Step> { [LandExposures(i.exposures), LandRows(HotRows(i))] }

  function Landed(s: State): seq<Attributed> { Corrections(s, CandidateDays(s.lakeRows)) }

  /** A job that executed its first `done` statements and then, perhaps, a part of the next. */
  datatype Event = Event(job: Job, done: nat, part: Option<Step>)

  predicate IsPartOf(step: Step, part: Step) {
    match part
    case CrashInLoadExposures(day, _, _) => step == LoadExposures(day)
    case CrashInLoadRows(day, _, _) => step == LoadRows(day)
    case CrashInRefresh(_) => step == Refresh
    case _ => false
  }

  function Begun(part: Option<Step>): seq<Step> { if part.Some? then [part.value] else [] }

  function Executed(i: Input, s: State, e: Event): seq<Step>
    requires e.done <= |JobSteps(i, s, e.job)|
  {
    JobSteps(i, s, e.job)[..e.done] + Begun(e.part)
  }

  ghost function After(i: Input, s: State, e: Event): State
    requires e.done <= |JobSteps(i, s, e.job)|
  {
    RunOf(s, Executed(i, s, e))
  }

  ghost predicate MayHappen(i: Input, s: State, e: Event) {
    var steps := JobSteps(i, s, e.job);
    && e.done <= |steps|
    && (e.job.Compaction? ==> SameSet(e.job.exposures, s.lakeExposures) && SameSet(e.job.rows, s.lakeRows))
    && PartMayHappen(s, steps, e.done, e.part)
  }

  ghost predicate PartMayHappen(s: State, steps: seq<Step>, done: nat, part: Option<Step>)
    requires done <= |steps|
  {
    part.Some? ==> done < |steps| && IsPartOf(steps[done], part.value) && Possible(RunOf(s, steps[..done]), part.value)
  }

  /** How far a job came: its statements, its loads, all of it; and whether it recovered rows. */
  datatype Progress = Progress(done: nat, loads: bool, completes: bool, recovers: bool)

  function ProgressOf(i: Input, s: State, e: Event): Progress {
    var n := |JobSteps(i, s, e.job)|;
    Progress(e.done, e.done == n || (e.done == n - 1 && JobSteps(i, s, e.job)[e.done] == Refresh), e.done == n,
             e.job.Reconciliation? && Landed(s) != [])
  }

  // ---------- histories in good order ----------

  /** What is known of a history: something was landed; the whole hot pass was; every day is
      loaded; the rollup is refreshed as well; a reconciliation was landed; and a truncation
      stopped after the rollup and before its bookkeeping. */
  datatype Phase = Phase(started: bool, landed: bool, loaded: bool, settled: bool, reconciled: bool, cut: bool)

  /** A reconciliation does not start over a hot pass that was landed and is not loaded, and a
      replay not over one of which only the exposures were landed. */
  predicate InOrder(p: Phase, job: Job) {
    match job
    case Reconciliation => p.loaded || p.reconciled || !p.landed
    case Replay => p.landed || !p.started
    case _ => true
  }

  /** A cut stays until a replay has emptied all six tables, whatever hot jobs complete. */
  function PhaseAfter(p: Phase, job: Job, g: Progress): Phase {
    if g.done == 0 then p
    else
      match job
      case HotJob =>
        Phase(true, p.landed || g.done >= 2, g.loads && g.done >= 2 && !p.cut, g.completes && !p.cut, p.reconciled,
          p.cut)
      case Reconciliation =>
        if g.recovers then p.(loaded := g.loads, settled := g.completes, reconciled := true)
        else p.(reconciled := p.loaded || p.reconciled)
      case Replay =>
        if g.done < 6 then p.(loaded := false, settled := false, cut := p.cut || g.done >= 4)
        else p.(loaded := g.loads && p.landed, settled := g.completes && p.landed, cut := false)
      case Compaction(_, _) => p
  }

  ghost predicate OrderlyHistory(i: Input, s: State, p: Phase, events: seq<Event>)
    decreases |events|
  {
    events == [] ||
    (MayHappen(i, s, events[0]) && InOrder(p, events[0].job) &&
     OrderlyHistory(i, After(i, s, events[0]), PhaseAfter(p, events[0].job, ProgressOf(i, s, events[0])), events[1..]))
  }

  ghost function EndOf(i: Input, s: State, p: Phase, events: seq<Event>): (State, Phase)
    requires OrderlyHistory(i, s, p, events)
    decreases |events|
  {
    if events == [] then (s, p)
    else EndOf(i, After(i, s, events[0]), PhaseAfter(p, events[0].job, ProgressOf(i, s, events[0])), events[1..])
  }

  /** What holds between any two jobs. */
  ghost predicate Between(i: Input, s: State, p: Phase, open: Open) {
    && OfInput(i, s) && AllOrNone(i, s.lakeRows)
    && (!p.cut ==> Book(i, s, open))
    && (!p.started ==> s.lakeExposures == [] && !p.landed)
    && (!p.landed ==> s.lakeRows == [])
    && (p.landed ==> LakeHoldsHot(i, s))
    && (p.loaded ==> p.landed && !p.cut && AllLoaded(i, s))
    && (p.settled ==> p.loaded && Exact(s))
    && (p.reconciled ==> LakeHoldsBoth(i, s))
  }

  // ---------- a job's statements are allowed ----------

  lemma {:induction false} AllowedAppend(i: Input, s: State, x: seq<Step>, y: seq<Step>)
    ensures AllowedRun(i, s, x + y) <==> AllowedRun(i, s, x) && AllowedRun(i, RunOf(s, x), y)
    decreases |x|
  {
    hide Next, Allowed;
    if x == [] {
      assert x + y == y;
    } else {
      assert (x + y)[0] == x[0] && (x + y)[1..] == x[1..] + y;
      AllowedAppend(i, Next(s, x[0]), x[1..], y);
    }
  }

  lemma OneAllowed(i: Input, s: State, step: Step)
    ensures AllowedRun(i, s, [step]) <==> Allowed(i, s, step)
    ensures RunOf(s, [step]) == Next(s, step)
  {
    hide Next, Allowed;
    assert [step][1..] == [];
    assert AllowedRun(i, Next(s, step), []);
    assert RunOf(Next(s, step), []) == Next(s, step);
  }

  lemma {:induction false} RunKeepsOfInput(i: Input, s: State, steps: seq<Step>)
    requires OfInput(i, s) && AllowedRun(i, s, steps)
    ensures OfInput(i, RunOf(s, steps))
    decreases |steps|
  {
    hide OfInput, Allowed, Next, Possible;
    if steps != [] {
      AllowedKeepsLake(i, s, steps[0]);
      RunKeepsOfInput(i, Next(s, steps[0]), steps[1..]);
    }
  }

  /** The load and the refresh are allowed if the loads settle the warehouse. */
  lemma FinishAllowed(i: Input, s: State, days: set<int>)
    requires days != {} ==> Settled(i, RunOf(s, LoadSteps(SortedIds(days))))
    ensures AllowedRun(i, s, Finish(days)) && RunOf(s, Finish(days)) == LoadJob(s, days)
  {
    hide LoadSteps, Settled, Next, Allowed;
    if days != {} {
      var loads := LoadSteps(SortedIds(days));
      var t := RunOf(s, loads);
      LoadStepsAre(SortedIds(days));
      LoadsAllowed(i, s, loads);
      AllowedAppend(i, s, loads, [Refresh]);
      OneAllowed(i, t, Refresh);
      RefreshAllowed(i, t);
      RunAppend(s, loads, [Refresh]);
    }
  }

  /** A job that executes all of its statements is the job as its method is proved to run it. */
  lemma JobStepsAreTheJobs(i: Input, s: State)
    ensures RunOf(s, JobSteps(i, s, HotJob)) == EngineJob(s, i)
    ensures RunOf(s, JobSteps(i, s, Reconciliation)) == ReconcileJob(s, CandidateDays(s.lakeRows))
    ensures RunOf(s, JobSteps(i, s, Replay)) == if ReplayDays(s) == {} then s else ReplayJob(s)
  {
    hide HotRows, Next, Corrections, CandidateDays, LoadJob, Finish, Truncations;
    var landed := [LandRows(Landed(s))];
    RunAppend(s, HotLandings(i), Finish(AllDays(i)));
    HotLandingsRun(i, s);
    FinishRuns(RunOf(s, HotLandings(i)), AllDays(i));
    RunAppend(s, landed, Finish(DaysOf(Landed(s))));
    RunOfOne(s, LandRows(Landed(s)));
    FinishRuns(Next(s, LandRows(Landed(s))), DaysOf(Landed(s)));
    RunAppend(s, Truncations(), Finish(ReplayDays(s)));
    AllTruncated(s);
    FinishRuns(Next(s, Truncate), ReplayDays(s));
  }

  lemma HotLandingsRun(i: Input, s: State)
    ensures RunOf(s, HotLandings(i)) == Next(Next(s, LandExposures(i.exposures)), LandRows(HotRows(i)))
  {
    hide HotRows, Next;
    var steps := HotLandings(i);
    assert steps[1..] == [LandRows(HotRows(i))];
    RunOfOne(Next(s, LandExposures(i.exposures)), LandRows(HotRows(i)));
  }

  lemma RunOfOne(s: State, step: Step)
    ensures RunOf(s, [step]) == Next(s, step)
  {
    hide Next;
    assert [step][1..] == [];
    assert RunOf(Next(s, step), []) == Next(s, step);
  }

  lemma FinishRuns(s: State, days: set<int>)
    ensures RunOf(s, Finish(days)) == LoadJob(s, days)
  {
    hide LoadSteps, Next;
    if days != {} { RunSnoc(s, LoadSteps(SortedIds(days)), Refresh); }
  }

  lemma RefreshAllowed(i: Input, s: State)
    requires Settled(i, s)
    ensures Allowed(i, s, Refresh)
  {
    hide Settled;
  }

  lemma PartAllowed(i: Input, s: State, step: Step, part: Step)
    requires Allowed(i, s, step) && IsPartOf(step, part) && Possible(s, part)
    ensures Allowed(i, s, part)
  {
    hide Settled, Recomputed;
  }

  /** Whatever part of allowed statements was executed was allowed. */
  lemma PrefixAllowed(i: Input, s: State, steps: seq<Step>, done: nat, part: Option<Step>)
    requires AllowedRun(i, s, steps) && done <= |steps| && PartMayHappen(s, steps, done, part)
    ensures AllowedRun(i, s, steps[..done] + Begun(part))
  {
    hide Next, Allowed, Possible, IsPartOf;
    var before, rest := steps[..done], steps[done..];
    assert steps == before + rest;
    AllowedAppend(i, s, before, rest);
    if part.Some? {
      var t := RunOf(s, before);
      assert rest[0] == steps[done];
      PartAllowed(i, t, rest[0], part.value);
      OneAllowed(i, t, part.value);
      AllowedAppend(i, s, before, [part.value]);
    } else {
      assert before + [] == before;
    }
  }

  /** Beyond its first statements a job executes a part of those that follow. */
  lemma Beyond(s: State, first: seq<Step>, rest: seq<Step>, done: nat, part: Option<Step>)
    requires |first| <= done <= |first + rest| && PartMayHappen(s, first + rest, done, part)
    ensures PartMayHappen(RunOf(s, first), rest, done - |first|, part)
    ensures RunOf(s, (first + rest)[..done] + Begun(part)) ==
            RunOf(RunOf(s, first), rest[..done - |first|] + Begun(part))
  {
    hide Possible, IsPartOf, RunOf;
    var n := done - |first|;
    assert (first + rest)[..done] == first + rest[..n];
    assert (first + rest)[..done] + Begun(part) == first + (rest[..n] + Begun(part));
    RunAppend(s, first, rest[..n] + Begun(part));
    RunAppend(s, first, rest[..n]);
    assert part.Some? ==> (first + rest)[done] == rest[n];
  }

  // ---------- the load and the refresh ----------

  predicate Lands(step: Step) { step.LandExposures? || step.LandRows? || step.Compact? }

  lemma {:induction false} LakeStays(s: State, steps: seq<Step>)
    requires forall x :: x in steps ==> !Lands(x)
    ensures RunOf(s, steps).lakeExposures == s.lakeExposures && RunOf(s, steps).lakeRows == s.lakeRows
    decreases |steps|
  {
    hide ExposureStamps, RowStamps, Recomputed, DirtyNow, DayRows;
    if steps != [] {
      assert steps[0] in steps && forall x :: x in steps[1..] ==> x in steps;
      LakeStays(Next(s, steps[0]), steps[1..]);
    }
  }

  lemma FinishLandsNothing(days: set<int>)
    ensures forall x :: x in Finish(days) ==> !Lands(x)
  {
    if days != {} {
      LoadStepsAre(SortedIds(days));
    }
  }

  /** What was executed of a load and a refresh, over whatever tables. */
  lemma FinishFrame(i: Input, s: State, days: set<int>, done: nat, part: Option<Step>)
    requires done <= |Finish(days)| && PartMayHappen(s, Finish(days), done, part)
    ensures var t := RunOf(s, Finish(days)[..done] + Begun(part));
      t.lakeExposures == s.lakeExposures && t.lakeRows == s.lakeRows
    ensures LandsHot(i, Finish(days)[..done] + Begun(part))
  {
    hide Finish, RunOf, Possible, HotRows;
    var executed := Finish(days)[..done] + Begun(part);
    FinishLandsNothing(days);
    assert forall x :: x in Finish(days)[..done] ==> x in Finish(days);
    LakeStays(s, executed);
  }

  /** A warehouse that the loads of `days` would load completely. */
  ghost predicate Loads(i: Input, s: State, days: set<int>) {
    var u := RunOf(s, LoadSteps(SortedIds(days)));
    AllLoaded(i, u) && Settled(i, u)
  }

  /** What a part of a load and a refresh leaves of a warehouse whose books are in order. */
  lemma FinishAfter(i: Input, s: State, days: set<int>, done: nat, part: Option<Step>, open: Open)
    requires Book(i, s, open) && Loads(i, s, days) && days != {}
    requires done <= |Finish(days)| && PartMayHappen(s, Finish(days), done, part)
    ensures var t := RunOf(s, Finish(days)[..done] + Begun(part));
      && Book(i, t, OpenOf(open, Finish(days)[..done] + Begun(part)))
      && (done + 1 >= |Finish(days)| ==> AllLoaded(i, t)) && (done == |Finish(days)| ==> Good(i, t))
  {
    hide Book, AllLoaded, Settled, RunOf, LoadSteps, Possible, LandsHot, Allowed, AllowedRun, OpenOf, Good, IsPartOf;
    var loads := LoadSteps(SortedIds(days));
    var all, u := loads + [Refresh], RunOf(s, loads);
    FinishAllowed(i, s, days);
    PrefixAllowed(i, s, all, done, part);
    FinishFrame(i, s, days, done, part);
    RunKeepsBook(i, s, all[..done] + Begun(part), open);
    if done == |all| {
      assert all[..done] + Begun(part) == all;
      LoadedIsConsistent(i, u);
      RefreshFinishes(i, u);
      GoodIsLoaded(i, LoadJob(s, days));
    } else if done == |loads| {
      Beyond(s, loads, [Refresh], done, part);
      PartOfRefresh(i, u, part);
      assert [Refresh][..0] + Begun(part) == Begun(part);
    }
  }

  lemma PartOfRefresh(i: Input, u: State, part: Option<Step>)
    requires AllLoaded(i, u) && Settled(i, u) && PartMayHappen(u, [Refresh], 0, part)
    ensures AllLoaded(i, RunOf(u, Begun(part)))
  {
    hide PipelineInv, Inv, Settled, Recomputed, Fresh, Next, RunOf;
    assert [Refresh][..0] == [] && RunOf(u, []) == u by { NothingRun(u); }
    if part.Some? {
      OneAllowed(i, u, part.value);
      PartAllowed(i, u, Refresh, part.value) by { RefreshAllowed(i, u); }
      OneLoadRises(i, u, part.value);
      AllowedKeepsInv(i, u, part.value);
      StepKeepsInv(u, part.value, Open({}, {}));
      CrashFrame(u, part.value);
      SameFresh(u, Next(u, part.value));
    }
  }

  lemma NothingRun(s: State)
    ensures RunOf(s, []) == s
  {
  }

  lemma CrashFrame(s: State, part: Step)
    requires part.CrashInRefresh?
    ensures var t := Next(s, part);
      t.lakeExposures == s.lakeExposures && t.lakeRows == s.lakeRows && t.exposures == s.exposures && t.rows == s.rows
  {
  }

  // ---------- the hot job ----------

  lemma LandedLake(s: State, x: seq<Exposure>, r: seq<Attributed>)
    ensures Next(s, LandExposures(x)).lakeExposures == s.lakeExposures + x
    ensures Next(s, LandExposures(x)).lakeRows == s.lakeRows
    ensures Next(Next(s, LandExposures(x)), LandRows(r)).lakeExposures == s.lakeExposures + x
    ensures Next(Next(s, LandExposures(x)), LandRows(r)).lakeRows == s.lakeRows + r
    ensures Next(s, LandRows(r)).lakeExposures == s.lakeExposures && Next(s, LandRows(r)).lakeRows == s.lakeRows + r
  {
  }

  lemma HotLandingsAllowed(i: Input, s: State)
    ensures AllowedRun(i, s, HotLandings(i)) && LandsHot(i, HotLandings(i))
    ensures RunOf(s, HotLandings(i)) == HotLanded(i, s)
    ensures RunOf(s, HotLandings(i)) == Next(Next(s, LandExposures(i.exposures)), LandRows(HotRows(i)))
  {
    hide HotRows, Next;
    var x, r := LandExposures(i.exposures), LandRows(HotRows(i));
    assert HotLandings(i) == [x] + [r];
    OneAllowed(i, s, x);
    OneAllowed(i, Next(s, x), r);
    AllowedAppend(i, s, [x], [r]);
    RunAppend(s, [x], [r]);
    assert forall a :: a in HotRows(i) ==> a in HotRows(i);
    assert Allowed(i, s, x) && Allowed(i, Next(s, x), r);
  }

  /** The landings that a hot job executed before it crashed. */
  lemma HotBegins(i: Input, s: State, p: Phase, open: Open, e: Event)
    requires Between(i, s, p, open) && MayHappen(i, s, e) && e.job.HotJob? && e.done == 1
    ensures e.part.None? && After(i, s, e) == Next(s, LandExposures(i.exposures))
    ensures OfInput(i, After(i, s, e)) && (!p.cut ==> Book(i, After(i, s, e), open))
  {
    hide HotRows, Finish, Next, Possible, Book, OfInput, AllOrNone, AllLoaded, LakeHoldsHot, LakeHoldsBoth, Exact,
         AllDays;
    var x := LandExposures(i.exposures);
    assert Executed(i, s, e) == [x];
    OneAllowed(i, s, x);
    HotLandingsFit(i, s);
    AllowedKeepsLake(i, s, x);
    LandedLake(s, i.exposures, []);
    if !p.cut { AllowedKeepsBook(i, s, x, open); }
  }

  lemma HotGoesOn(i: Input, s: State, p: Phase, open: Open, e: Event) returns (after: Open)
    requires Between(i, s, p, open) && MayHappen(i, s, e) && e.job.HotJob? && e.done >= 2
    ensures var t, g := After(i, s, e), ProgressOf(i, s, e);
      && OfInput(i, t) && t.lakeExposures == s.lakeExposures + i.exposures && t.lakeRows == s.lakeRows + HotRows(i)
      && (!p.cut ==> Book(i, t, after) && (g.loads ==> AllLoaded(i, t)) && (g.completes ==> Good(i, t)))
  {
    hide HotRows, Finish, Next, Possible, Book, OfInput, AllOrNone, AllLoaded, LakeHoldsHot, LakeHoldsBoth, Exact,
         AllDays, Good, RunOf, LoadSteps, AllowedRun, LandsHot, PartMayHappen, OpenOf;
    var first, rest := HotLandings(i), Finish(AllDays(i));
    var s2, m := HotLanded(i, s), e.done - 2;
    var executed := rest[..m] + Begun(e.part);
    HotLandingsAllowed(i, s);
    HotLandingsFit(i, s);
    LandedLake(s, i.exposures, HotRows(i));
    Beyond(s, first, rest, e.done, e.part);
    HotLoadsSettle(i, s);
    FinishAllowed(i, s2, AllDays(i));
    PrefixAllowed(i, s2, rest, m, e.part);
    RunKeepsOfInput(i, s2, executed);
    FinishFrame(i, s2, AllDays(i), m, e.part);
    after := OpenOf(OpenOf(open, first), executed);
    if !p.cut {
      RunKeepsBook(i, s, first, open);
      HotLoadsKeepBook(i, s, open);
      if AllDays(i) == {} {
        NoFinish(i, s2, rest, m, e.part);
        RunKeepsBook(i, s2, executed, OpenOf(open, first));
        HotJobRepairs(i, s, open);
        HotJobIs(i, s);
        EmptyLandings(i, s);
        NoLoads(i, s);
        GoodIsLoaded(i, s2);
      } else {
        FinishAfter(i, s2, AllDays(i), m, e.part, OpenOf(open, first));
        LoadsBefore(AllDays(i));
      }
    }
  }

  lemma NoFinish(i: Input, s: State, rest: seq<Step>, m: nat, part: Option<Step>)
    requires rest == Finish({}) && m <= |rest| && PartMayHappen(s, rest, m, part)
    ensures rest == [] && part.None? && rest[..m] + Begun(part) == [] && RunOf(s, []) == s
  {
  }

  lemma NoLoads(i: Input, s: State)
    requires AllDays(i) == {}
    ensures HotReloaded(i, s) == HotLanded(i, s)
  {
    hide HotRows, Next;
    NoDays(HotLanded(i, s));
  }

  lemma LoadsBefore(days: set<int>)
    requires days != {}
    ensures |Finish(days)| > 0 && Finish(days)[|Finish(days)| - 1] == Refresh
    ensures forall k :: 0 <= k < |Finish(days)| - 1 ==> Finish(days)[k] != Refresh
  {
    var loads := LoadSteps(SortedIds(days));
    LoadStepsAre(SortedIds(days));
    forall k | 0 <= k < |Finish(days)| - 1 ensures Finish(days)[k] != Refresh { assert loads[k] in loads; }
  }

  lemma HotLakeKeeps(i: Input, s: State, t: State, done: nat)
    requires AllOrNone(i, s.lakeRows)
    requires t.lakeExposures == s.lakeExposures + (if done >= 1 then i.exposures else [])
    requires t.lakeRows == s.lakeRows + (if done >= 2 then HotRows(i) else [])
    ensures AllOrNone(i, t.lakeRows)
    ensures LakeHoldsHot(i, s) || done >= 2 ==> LakeHoldsHot(i, t)
    ensures LakeHoldsBoth(i, s) ==> LakeHoldsBoth(i, t)
  {
    hide HotRows, ReconRows;
    if done >= 2 { HotIsNotRecon(i, s); }
  }

  lemma HotAfter(i: Input, s: State, p: Phase, open: Open, e: Event) returns (after: Open)
    requires Between(i, s, p, open) && MayHappen(i, s, e) && e.job.HotJob?
    ensures Between(i, After(i, s, e), PhaseAfter(p, e.job, ProgressOf(i, s, e)), after)
  {
    hide HotRows, ReconRows, Book, OfInput, AllLoaded, Good, AllOrNone, LakeHoldsHot, LakeHoldsBoth, After, MayHappen,
         JobSteps, Exact;
    after := open;
    DoneBound(i, s, e);
    var t, g := After(i, s, e), ProgressOf(i, s, e);
    if e.done == 0 {
      NothingExecuted(i, s, e);
    } else if e.done == 1 {
      HotBegins(i, s, p, open, e);
      LandedLake(s, i.exposures, []);
      assert s.lakeRows + [] == s.lakeRows;
      HotLakeKeeps(i, s, t, 1);
      HotHasTwo(i, s, e);
    } else {
      after := HotGoesOn(i, s, p, open, e);
      HotLakeKeeps(i, s, t, 2);
      if g.completes && !p.cut {
        GoodIsExact(i, t);
        GoodIsLoaded(i, t);
      }
    }
  }

  lemma HotHasTwo(i: Input, s: State, e: Event)
    requires e.job.HotJob? && e.done == 1
    ensures !ProgressOf(i, s, e).completes
  {
    hide HotRows, Finish, AllDays;
  }

  lemma DoneBound(i: Input, s: State, e: Event)
    requires MayHappen(i, s, e)
    ensures e.done <= |JobSteps(i, s, e.job)|
  {
    hide JobSteps, Possible;
  }

  /** A job of which nothing was executed changed nothing. */
  lemma NothingExecuted(i: Input, s: State, e: Event)
    requires MayHappen(i, s, e) && e.done == 0
    ensures After(i, s, e) == s && ProgressOf(i, s, e).done == 0
  {
    hide HotRows, Corrections, CandidateDays, DaysOf, Possible, LoadSteps, AllDays, ReplayDays, Truncations;
    FirstStatement(i, s, e.job);
    assert Executed(i, s, e) == [];
  }

  /** The first statement of a job leaves nothing when it fails. */
  lemma FirstStatement(i: Input, s: State, job: Job)
    ensures JobSteps(i, s, job) != [] ==> forall part :: !IsPartOf(JobSteps(i, s, job)[0], part)
  {
    hide HotRows, Corrections, CandidateDays, DaysOf, LoadSteps, AllDays, ReplayDays;
  }

  // ---------- the reconciliation ----------

  lemma CorrectionsLoadable(i: Input, s: State)
    requires AllLoaded(i, s) && LakeHoldsHot(i, s) && AllOrNone(i, s.lakeRows)
    ensures Loadable(i, Next(s, LandRows(Landed(s))), DaysOf(Landed(s)), Stale({}, DaysOf(Landed(s))))
    ensures Allowed(i, s, LandRows(Landed(s)))
    ensures AllOrNone(i, s.lakeRows + Landed(s)) && LakeHoldsBoth(i, Next(s, LandRows(Landed(s))))
  {
    hide HotRows, ReconRows, PipelineInv, Inv, Exact, Fresh, DaysOf, Corrections, CandidateDays, UniqueExposures,
         Allowed;
    LandedIsRest(i, s);
    LoadedParts(i, s);
    CorrectionsAllowed(i, s, CandidateDays(s.lakeRows));
    LandingKeeps(i, s, LandRows(Landed(s)));
    NoDaysOff(DaysOf(Landed(s)));
  }

  /** Over both passes, or over no rows at all, there is nothing to correct. */
  lemma NothingToCorrect(i: Input, s: State, p: Phase, open: Open)
    requires Between(i, s, p, open) && InOrder(p, Reconciliation) && !p.loaded
    ensures Landed(s) == []
  {
    hide HotRows, ReconRows, Book, AllOrNone, Corrections, CandidateDays, AllLoaded, ServesLatest, FromLake;
    if p.reconciled {
      CorrectionsAre(i, s);
    } else {
      NoRowsNoCorrections(s);
    }
  }

  lemma NoRowsNoCorrections(s: State)
    requires s.lakeRows == []
    ensures Corrections(s, CandidateDays(s.lakeRows)) == []
  {
    hide PassOver, ServedMaxIngest, LakeCandidates, CurrentOf;
    CandidatesAre([]);
    forall a ensures a !in LakeCandidates([]) { if a in LakeCandidates([]) { CurrentIs([], a.Cid()); } }
    FirstIn(CandidateDays([]));
  }

  /** A reconciliation that recovers nothing changes nothing. */
  lemma NothingRecovered(i: Input, s: State, e: Event)
    requires MayHappen(i, s, e) && e.job.Reconciliation? && Landed(s) == []
    ensures After(i, s, e) == s
  {
    hide Corrections, CandidateDays, DaysOf, Possible, Next;
    NoRowsNoDays(Landed(s));
    var one := LandRows([]);
    assert JobSteps(i, s, e.job) == [one];
    assert Executed(i, s, e) == if e.done == 0 then [] else [one];
    NothingRun(s);
    OneAllowed(i, s, one);
    LandsNothing(s);
  }

  lemma LandsNothing(s: State)
    ensures Next(s, LandRows([])) == s
  {
    assert s.lakeRows + [] == s.lakeRows;
  }

  lemma ReconciliationGoesOn(i: Input, s: State, p: Phase, open: Open, e: Event) returns (after: Open)
    requires Between(i, s, p, open) && MayHappen(i, s, e) && e.job.Reconciliation? && e.done >= 1
    requires p.loaded && Landed(s) != []
    ensures var t, g := After(i, s, e), ProgressOf(i, s, e);
      && OfInput(i, t) && t.lakeExposures == s.lakeExposures && t.lakeRows == s.lakeRows + Landed(s)
      && Book(i, t, after) && (g.loads ==> AllLoaded(i, t)) && (g.completes ==> Good(i, t))
  {
    hide HotRows, Finish, Next, Possible, Book, OfInput, AllOrNone, AllLoaded, LakeHoldsHot, LakeHoldsBoth, Exact,
         Good, RunOf, LoadSteps, AllowedRun, LandsHot, PartMayHappen, OpenOf, Landed, DaysOf, Allowed, Loadable,
         PipelineInv, Inv, Settled;
    var step, days := LandRows(Landed(s)), DaysOf(Landed(s));
    var rest, s1, m := Finish(days), Next(s, step), e.done - 1;
    var executed := rest[..m] + Begun(e.part);
    OneAllowed(i, s, step);
    CorrectionsLoadable(i, s);
    LandedLake(s, [], Landed(s));
    Beyond(s, [step], rest, e.done, e.part);
    AllowedKeepsBook(i, s, step, open);
    SomeRowSomeDay(Landed(s));
    LoadsSettle(i, s1, days, Stale({}, days));
    SettledIsLoaded(i, RunOf(s1, LoadSteps(SortedIds(days))));
    FinishFrame(i, s1, days, m, e.part);
    after := OpenOf(OpenAfter(open, step), executed);
    FinishAfter(i, s1, days, m, e.part, OpenAfter(open, step));
    LoadsBefore(days);
    BookIsOfInput(i, After(i, s, e), after);
  }

  lemma BookIsOfInput(i: Input, s: State, open: Open)
    requires Book(i, s, open)
    ensures OfInput(i, s) && AllOrNone(i, s.lakeRows)
  {
  }

  lemma SettledIsLoaded(i: Input, s: State)
    requires PipelineInv(i, s) && Inv(s, Open({}, {})) && Settled(i, s)
    ensures AllLoaded(i, s)
  {
    hide PipelineInv, Inv;
  }

  lemma ReconciliationAfter(i: Input, s: State, p: Phase, open: Open, e: Event) returns (after: Open)
    requires Between(i, s, p, open) && MayHappen(i, s, e) && e.job.Reconciliation? && InOrder(p, e.job)
    ensures Between(i, After(i, s, e), PhaseAfter(p, e.job, ProgressOf(i, s, e)), after)
  {
    hide HotRows, ReconRows, Book, OfInput, AllLoaded, Good, AllOrNone, LakeHoldsHot, LakeHoldsBoth, After, MayHappen,
         JobSteps, Exact, Landed, Next;
    after := open;
    DoneBound(i, s, e);
    var t, g := After(i, s, e), ProgressOf(i, s, e);
    if p.loaded {
      CorrectionsLoadable(i, s);
      LandedLake(s, [], Landed(s));
    } else {
      NothingToCorrect(i, s, p, open);
    }
    if e.done == 0 {
      NothingExecuted(i, s, e);
    } else if Landed(s) == [] {
      NothingRecovered(i, s, e);
      LandsNothing(s);
    } else {
      after := ReconciliationGoesOn(i, s, p, open, e);
      SameLakeHolds(i, Next(s, LandRows(Landed(s))), t);
      BothHoldsHot(i, t);
      if g.completes {
        GoodIsExact(i, t);
        GoodIsLoaded(i, t);
      }
    }
  }

  lemma SameLakeHolds(i: Input, s: State, t: State)
    requires s.lakeExposures == t.lakeExposures && s.lakeRows == t.lakeRows
    ensures LakeHoldsBoth(i, s) ==> LakeHoldsBoth(i, t)
    ensures LakeHoldsHot(i, s) ==> LakeHoldsHot(i, t)
  {
    hide HotRows, ReconRows;
  }

  lemma BothHoldsHot(i: Input, s: State)
    requires LakeHoldsBoth(i, s)
    ensures LakeHoldsHot(i, s)
  {
    hide HotRows, ReconRows;
  }

  // ---------- the replay ----------

  lemma SomethingStarted(s: State)
    ensures s.lakeExposures == [] && s.lakeRows == [] ==> ReplayDays(s) == {}
  {
  }

  /** Over emptied tables the books are in order, and the loads of a replay load everything. */
  lemma EmptiedIsBook(i: Input, s: State)
    requires OfInput(i, s) && LakeHoldsHot(i, s) && AllOrNone(i, s.lakeRows)
    ensures Book(i, Next(s, Truncate), Open({}, {})) && Loads(i, Next(s, Truncate), ReplayDays(s))
  {
    hide HotRows, ReconRows, PipelineInv, Inv, Fresh, AllOrNone, DaysAired, DaysOf, OfInput, Next, RunOf, LoadSteps,
         Settled, AllLoaded, Book;
    var s0 := Next(s, Truncate);
    TruncatedKeeps(i, s);
    EmptiedLake(i, s);
    AllStale(s0, Stale(DaysAired(s0.lakeExposures), DaysOf(s0.lakeRows)));
    InvIsBook(i, s0, Open({}, {}));
    LoadsSettle(i, s0, ReplayDays(s), Stale(DaysAired(s0.lakeExposures), DaysOf(s0.lakeRows)));
    SettledIsLoaded(i, RunOf(s0, LoadSteps(SortedIds(ReplayDays(s)))));
  }

  lemma EmptiedLake(i: Input, s: State)
    ensures LakeHoldsHot(i, s) ==> LakeHoldsHot(i, Next(s, Truncate))
    ensures Next(s, Truncate).lakeExposures == s.lakeExposures && Next(s, Truncate).lakeRows == s.lakeRows
  {
    hide HotRows;
  }

  /** A replay that crashed among its truncations. */
  lemma ReplayBegins(i: Input, s: State, p: Phase, open: Open, e: Event)
    requires Between(i, s, p, open) && MayHappen(i, s, e) && e.job.Replay? && e.done < 6
    ensures After(i, s, e) == Truncated(s, e.done) && OfInput(i, After(i, s, e))
    ensures !p.cut && e.done <= 3 ==> Book(i, After(i, s, e), open)
  {
    hide HotRows, Finish, Next, Possible, Book, OfInput, AllOrNone, AllLoaded, LakeHoldsHot, LakeHoldsBoth, Exact,
         ReplayDays, Emptied;
    if ReplayDays(s) == {} {
      NothingRun(s);
      assert e.done == 0 && Executed(i, s, e) == [];
    } else {
      assert JobSteps(i, s, e.job)[..e.done] == Truncations()[..e.done];
      assert JobSteps(i, s, e.job)[e.done].TruncateTable?;
      assert Executed(i, s, e) == Truncations()[..e.done];
      TruncationsAre(s, e.done);
    }
    TruncatedLake(i, s, e.done);
    if !p.cut && e.done <= 3 { TruncationKeepsBook(i, s, e.done, open); }
  }

  lemma TruncatedLake(i: Input, s: State, n: nat)
    requires n <= 6
    ensures Truncated(s, n).lakeExposures == s.lakeExposures && Truncated(s, n).lakeRows == s.lakeRows
    ensures OfInput(i, s) ==> OfInput(i, Truncated(s, n))
  {
    hide HotRows, ReconRows;
    TruncatedIs(s, n);
  }

  lemma ReplayGoesOn(i: Input, s: State, p: Phase, open: Open, e: Event) returns (after: Open)
    requires Between(i, s, p, open) && MayHappen(i, s, e) && e.job.Replay? && InOrder(p, Replay) && e.done >= 6
    ensures var t, g := After(i, s, e), ProgressOf(i, s, e);
      && p.landed && OfInput(i, t) && t.lakeExposures == s.lakeExposures && t.lakeRows == s.lakeRows
      && Book(i, t, after) && (g.loads ==> AllLoaded(i, t)) && (g.completes ==> Good(i, t))
  {
    hide HotRows, Finish, Next, Possible, Book, OfInput, AllOrNone, AllLoaded, LakeHoldsHot, LakeHoldsBoth, Exact, Good,
         RunOf, LandsHot, PartMayHappen, OpenOf, ReplayDays, Loads;
    var s0, days, m := Next(s, Truncate), ReplayDays(s), e.done - 6;
    SomethingStarted(s);
    AllTruncated(s);
    Beyond(s, Truncations(), Finish(days), e.done, e.part);
    EmptiedLake(i, s);
    EmptiedIsBook(i, s);
    FinishFrame(i, s0, days, m, e.part);
    after := OpenOf(Open({}, {}), Finish(days)[..m] + Begun(e.part));
    FinishAfter(i, s0, days, m, e.part, Open({}, {}));
    LoadsBefore(days);
    BookIsOfInput(i, After(i, s, e), after);
  }

  lemma ReplayAfter(i: Input, s: State, p: Phase, open: Open, e: Event) returns (after: Open)
    requires Between(i, s, p, open) && MayHappen(i, s, e) && e.job.Replay? && InOrder(p, e.job)
    ensures Between(i, After(i, s, e), PhaseAfter(p, e.job, ProgressOf(i, s, e)), after)
  {
    hide HotRows, ReconRows, Book, OfInput, AllLoaded, Good, AllOrNone, LakeHoldsHot, LakeHoldsBoth, After, MayHappen,
         JobSteps, Exact, Truncated;
    after := open;
    DoneBound(i, s, e);
    var t, g := After(i, s, e), ProgressOf(i, s, e);
    if e.done == 0 {
      NothingExecuted(i, s, e);
    } else if e.done < 6 {
      ReplayBegins(i, s, p, open, e);
      TruncatedLake(i, s, e.done);
      SameLakeHolds(i, s, t);
    } else {
      after := ReplayGoesOn(i, s, p, open, e);
      SameLakeHolds(i, s, t);
      if g.completes {
        GoodIsExact(i, t);
        GoodIsLoaded(i, t);
      }
    }
  }

  // ---------- the compaction ----------

  lemma CompactAllowed(i: Input, s: State, step: Step)
    requires step.Compact? && SameSet(step.compactedExposures, s.lakeExposures) &&
        SameSet(step.compactedRows, s.lakeRows)
    ensures Allowed(i, s, step) && Possible(s, step)
  {
  }

  lemma CompactedLake(i: Input, s: State, step: Step)
    requires step.Compact? && Possible(s, step)
    ensures var t := Next(s, step);
      && (LakeHoldsHot(i, s) ==> LakeHoldsHot(i, t)) && (LakeHoldsBoth(i, s) ==> LakeHoldsBoth(i, t))
      && (AllOrNone(i, s.lakeRows) ==> AllOrNone(i, t.lakeRows))
      && (s.lakeExposures == [] ==> t.lakeExposures == []) && (s.lakeRows == [] ==> t.lakeRows == [])
  {
    hide HotRows, ReconRows;
    FirstIn(Next(s, step).lakeExposures);
    FirstIn(Next(s, step).lakeRows);
  }

  lemma CompactionKeepsLoaded(i: Input, s: State, step: Step)
    requires AllLoaded(i, s) && step.Compact? && Allowed(i, s, step) && Possible(s, step)
    ensures AllLoaded(i, Next(s, step)) && (Exact(s) ==> Exact(Next(s, step)))
  {
    hide HotRows, ReconRows, PipelineInv, Inv, Fresh, Allowed, Possible, Items, Rebuild, Final;
    AllowedKeepsInv(i, s, step);
    StepKeepsInv(s, step, Open({}, {}));
    InvLake(s, Open({}, {}));
    StepKeepsFresh(s, step, Stale({}, {}));
    SameItems(s, Next(s, step));
  }

  lemma CompactionAfter(i: Input, s: State, p: Phase, open: Open, e: Event)
    requires Between(i, s, p, open) && MayHappen(i, s, e) && e.job.Compaction?
    ensures Between(i, After(i, s, e), PhaseAfter(p, e.job, ProgressOf(i, s, e)), open)
  {
    hide HotRows, ReconRows, Book, OfInput, AllLoaded, AllOrNone, LakeHoldsHot, LakeHoldsBoth, Exact, Next, Possible,
         RunOf, Allowed;
    if e.done == 0 {
      NothingExecuted(i, s, e);
    } else {
      var step := Compact(e.job.exposures, e.job.rows);
      assert Executed(i, s, e) == [step];
      CompactAllowed(i, s, step);
      CompactedLake(i, s, step);
      OneAllowed(i, s, step);
      AllowedKeepsLake(i, s, step);
      if !p.cut { AllowedKeepsBook(i, s, step, open); }
      if p.loaded { CompactionKeepsLoaded(i, s, step); }
    }
  }

  // ---------- the theorem ----------

  lemma EventKeeps(i: Input, s: State, p: Phase, open: Open, e: Event) returns (after: Open)
    requires Between(i, s, p, open) && MayHappen(i, s, e) && InOrder(p, e.job)
    ensures Between(i, After(i, s, e), PhaseAfter(p, e.job, ProgressOf(i, s, e)), after)
  {
    hide Between, MayHappen, InOrder, After, PhaseAfter, ProgressOf;
    after := open;
    match e.job
    case HotJob => after := HotAfter(i, s, p, open, e);
    case Reconciliation => after := ReconciliationAfter(i, s, p, open, e);
    case Replay => after := ReplayAfter(i, s, p, open, e);
    case Compaction(_, _) => CompactionAfter(i, s, p, open, e);
  }

  lemma {:induction false} HistoryKeeps(i: Input, s: State, p: Phase, open: Open, events: seq<Event>)
      returns (last: Open)
    requires Between(i, s, p, open) && OrderlyHistory(i, s, p, events)
    ensures Between(i, EndOf(i, s, p, events).0, EndOf(i, s, p, events).1, last)
    decreases |events|
  {
    hide Between, MayHappen, InOrder, After, PhaseAfter, ProgressOf;
    last := open;
    if events != [] {
      var e := events[0];
      DoneBound(i, s, e);
      var after := EventKeeps(i, s, p, open, e);
      last := HistoryKeeps(i, After(i, s, e), PhaseAfter(p, e.job, ProgressOf(i, s, e)), after, events[1..]);
    }
  }

  function Beginning(): Phase { Phase(false, false, false, false, false, false) }

  lemma BeginningIsBetween(i: Input)
    requires UniqueExposures(i.exposures)
    ensures Between(i, EmptyWarehouse(), Beginning(), Open({}, {}))
  {
    hide HotRows, ReconRows, Inv, Good, Book;
    EmptyIsGood(i);
    GoodIsConsistent(i, EmptyWarehouse());
    InvIsBook(i, EmptyWarehouse(), Open({}, {}));
    BookIsOfInput(i, EmptyWarehouse(), Open({}, {}));
  }

  /** From an empty warehouse, run hot jobs, reconciliations, replays and compactions in any
      order that is in good order, each completed or crashed after any statement or within
      one. Whenever the phase says settled, as it does after every hot job and every replay
      of the hot pass that completes over uncut tables, and every reconciliation that
      recovers something, the served rollup is the rebuild from the lake, and serving holds
      exactly the lake's exposures and current rows. What each job lands and stamps is
      computed from the state it starts in. */
  lemma OrderlyHistoriesServeTheLake(i: Input, events: seq<Event>)
    requires UniqueExposures(i.exposures) && OrderlyHistory(i, EmptyWarehouse(), Beginning(), events)
    requires EndOf(i, EmptyWarehouse(), Beginning(), events).1.settled
    ensures var s := EndOf(i, EmptyWarehouse(), Beginning(), events).0;
      && FinalHourly(s.hourly) == Rebuild(LakeItems(s))
      && (forall e :: e in s.exposures <==> e in s.lakeExposures)
      && (forall a :: a in FinalRows(s.rows) <==> CurrentOf(s.lakeRows, a.Cid()) == Some(a))
  {
    hide OrderlyHistory, EndOf, PipelineInv, Inv, Fresh, Rebuild, LakeItems, CurrentOf, Final, OfInput, Book;
    BeginningIsBetween(i);
    var last := HistoryKeeps(i, EmptyWarehouse(), Beginning(), Open({}, {}), events);
    var s := EndOf(i, EmptyWarehouse(), Beginning(), events).0;
    LoadedParts(i, s);
    FromInput(i, s);
    FreshServes(s, s);
  }

  // ---------- what the other orders do ----------

  /** The hot job of the example crashes after its landings, and a reconciliation runs: it
      stamps its credit with what the empty serving tables give, far below the hot row, so
      the lake's current row stays the miss and the lake is no longer consistent. */
  lemma ReconciliationOverUnloadedExample() returns (x: Attributed)
    ensures var s := RunOf(EmptyWarehouse(), JobSteps(Example(), EmptyWarehouse(), HotJob)[..2]);
      var landed := Corrections(s, CandidateDays(s.lakeRows));
      && x in landed && x.attributed && x.processedAt == 1000 && x !in ReconRows(Example()) && x !in HotRows(Example())
      && CurrentOf(s.lakeRows + landed, x.Cid()) != Some(x)
      && !Versioned(s.lakeRows + landed)
  {
    hide HotRows, ReconRows, Corrections, CandidateDays, RecoverRow, CurrentOf, Finish, Next, RunOf, Example, Items;
    var i, e := Example(), EmptyWarehouse();
    var s := Next(Next(e, LandExposures(i.exposures)), LandRows(HotRows(i)));
    HotLandingsAllowed(i, e);
    assert JobSteps(i, e, HotJob)[..2] == HotLandings(i);
    LandedLake(e, i.exposures, HotRows(i));
    LandedTables(e, i.exposures, HotRows(i));
    FirstOverEmpty(i);
    x := RecoveredUnloaded(s);
    TwoPassesAreVersioned(i, s.lakeRows) by { HotOfTwo(i); }
    LakeIsConsistent(i, s.lakeRows) by { HotOfTwo(i); }
    CorrectionIsCurrentIff(s, CandidateDays(s.lakeRows), x);
    var a := CorrectionMeans(s, CandidateDays(s.lakeRows), x);
    CurrentIs(s.lakeRows, x.Cid());
    HotIs(i);
    ExampleIngests(a);
    if x in ReconRows(i) {
      var h := Corrects(i, x);
      ExampleIngests(h);
    }
  }

  lemma LandedTables(s: State, x: seq<Exposure>, r: seq<Attributed>)
    ensures var t := Next(Next(s, LandExposures(x)), LandRows(r));
      t.exposures == s.exposures && t.rows == s.rows
  {
  }

  lemma ExampleIngests(a: Attributed)
    requires a in HotRows(Example())
    ensures a.processedAt > 1000
  {
    hide HotRows, OneRow, EngineCandidate;
    HotIs(Example());
    InOneRow(Example().resolved, a.res);
  }

  /** The correction that the empty serving tables stamp. */
  lemma RecoveredUnloaded(s: State) returns (x: Attributed)
    requires s.lakeExposures == Example().exposures && s.lakeRows == HotRows(Example())
    requires s.exposures == {} && s.rows == {}
    ensures x in Corrections(s, CandidateDays(s.lakeRows)) && x.processedAt == 1000
  {
    hide HotRows, ReconRows, CandidateDays, RecoverRow, CurrentOf, LakeCandidates, PassOver, OnDay, RecoveredByDay,
         AllByHousehold, Example, ReconciledAt;
    var i := Example();
    var later := ExampleRecovers(1, 10);
    var h := Corrects(i, later);
    var held := AllByHousehold(i.exposures);
    NothingAtAnyStamp(h, held, LONG_WINDOW, ReconciledAt(i), 1000);
    x := RecoverRow(h, held, LONG_WINDOW, 1000).value;
    RecoverRowMeans(h, held, LONG_WINDOW, 1000);
    HotCandidates(i);
    InPass(s.lakeRows, s.lakeExposures, LONG_WINDOW, 1000, x);
    LakeIsConsistent(i, s.lakeRows) by { HotOfTwo(i); }
    BucketedEqualsSinglePass(s.lakeExposures, s.lakeRows, LONG_WINDOW, 1000, x);
    NothingServed(s);
  }

  lemma NothingServed(s: State)
    requires s.exposures == {} && s.rows == {}
    ensures ReconciledAtFor(ServedMaxIngest(s)) == 1000
  {
    assert ExposureIngests(s) == {} && RowIngests(s) == {};
  }

  // ---------- a replay over half a landing ----------

  /** The hot job crashed between its two landings. */
  ghost function HalfLanded(i: Input): State { Next(EmptyWarehouse(), LandExposures(i.exposures)) }

  /** In every hour with a hot credit, some credit is stamped later than every exposure. */
  ghost predicate CreditsOutlast(i: Input) {
    forall y, e :: y in HotRows(i) && e in i.exposures && Credits(y, e) ==> OutlastedAt(i, KeyOf(e))
  }

  ghost predicate OutlastedAt(i: Input, k: Key) {
    exists z, f :: OutlastsAll(i, z, f) && KeyOf(f) == k
  }

  ghost predicate OutlastsAll(i: Input, z: Attributed, f: Exposure) {
    && z in HotRows(i) && f in i.exposures && Credits(z, f)
    && forall g :: g in i.exposures && KeyOf(g) == KeyOf(f) ==> g.ingestTime < z.processedAt
  }

  /** What the replay leaves. */
  lemma HalfReplayed(i: Input)
    requires UniqueExposures(i.exposures) && i.exposures != []
    ensures var t := ReplayJob(HalfLanded(i));
      && Inv(t, Open({}, {})) && DirtyNow(t) == {}
      && t.lakeExposures == i.exposures && t.lakeRows == [] && t.exposures == AllExposures(i) && t.rows == {}
  {
    hide RunOf, LoadSteps, Next, Inv, DirtyNow, OnlyLoads, CurrentOf, UniqueExposures, Versioned, ReplayDays,
         AllExposures;
    var s := HalfLanded(i);
    var s0, days := Next(s, Truncate), ReplayDays(s);
    var steps := LoadSteps(SortedIds(days));
    LandedLake(EmptyWarehouse(), i.exposures, []);
    assert [] + i.exposures == i.exposures;
    assert Versioned([]) by { NoRowsVersioned(); }
    TruncatedIsUnloaded(s);
    AiredAreReplayed(i, s);
    LoadStepsAre(SortedIds(days));
    FirstJob(s0, steps);
    UnloadedInv(s0);
    InvLake(s0, Open({}, {}));
    LoadedBy(s0, steps);
    RefreshFrame(RunOf(s0, steps));
    forall a: Attributed ensures CurrentOf([], a.Cid()) == None { CurrentIs([], a.Cid()); }
  }

  lemma AiredAreReplayed(i: Input, s: State)
    requires s.lakeExposures == i.exposures != []
    ensures ReplayDays(s) != {} && forall e :: e in i.exposures ==> EventDay(e) in ReplayDays(s)
    ensures forall e :: e in AllExposures(i) <==> e in i.exposures
  {
    forall e | e in i.exposures ensures EventDay(e) in ReplayDays(s) {}
    FirstIn(i.exposures);
  }

  lemma NoRowsVersioned()
    ensures Versioned([])
  {
  }

  /** What the refresh of the next hot job finds. */
  lemma HotLoads(i: Input, t: State) returns (u: State)
    requires UniqueExposures(i.exposures) && i.exposures != [] && Inv(t, Open({}, {}))
    requires t.lakeExposures == i.exposures && t.lakeRows == [] && t.exposures == AllExposures(i) && t.rows == {}
    ensures EngineJob(t, i) == Next(u, Refresh) && Recording(u, Open({}, {}))
    ensures t.exposures <= u.exposures && t.rows <= u.rows
    ensures t.dirty <= u.dirty && u.refreshed == t.refreshed && u.hourly == t.hourly
    ensures ItemsOf(u) == HotItems(i)
  {
    hide HotRows, ReconRows, RunOf, LoadSteps, Backed, Covered, Stamped, Honest, OnlyLoads, CurrentOf,
         UniqueExposures, Versioned, ItemsOf, HotItems, BothItems, PossibleRun, OpenOf, ExposureStamps, RowStamps;
    var days := DaysAired(i.exposures) + DaysOf(HotRows(i));
    var steps := LoadSteps(SortedIds(days));
    var t1 := Next(t, LandExposures(i.exposures));
    var t2 := Next(t1, LandRows(HotRows(i)));
    u := RunOf(t2, steps);
    DayOfSome(i);
    assert t1.lakeRows + HotRows(i) == HotRows(i);
    TwiceIsUnique(i.exposures);
    HotOfTwo(i);
    TwoPassesAreVersioned(i, HotRows(i));
    StepKeepsRecording(t, LandExposures(i.exposures), Open({}, {}));
    StepKeepsRecording(t1, LandRows(HotRows(i)), Open({}, {}));
    LoadStepsAre(SortedIds(days));
    LoadsPossible(t2, steps, Open({}, {}));
    RunKeepsRecording(t2, steps, Open({}, {}));
    LoadedBy(t2, steps);
    forall a | a in HotRows(i) && a.attributed ensures a in u.rows {
      CreditIsFinal(i, HotRows(i), a);
    }
    forall x | x in ReconRows(i) ensures x !in HotRows(i) { RecoveredIsNotHot(i, x); }
    ItemsLieBetween(i, u);
  }

  lemma DayOfSome(i: Input)
    requires i.exposures != []
    ensures DaysAired(i.exposures) + DaysOf(HotRows(i)) != {}
  {
    hide HotRows;
    FirstIn(i.exposures);
    assert EventDay(i.exposures[0]) in DaysAired(i.exposures);
  }

  lemma TwiceIsUnique(x: seq<Exposure>)
    requires UniqueExposures(x)
    ensures UniqueExposures(x + x)
  {
    assert forall e :: e in x + x ==> e in x;
  }

  /** Exactly when a replay over half a landing does no harm: the hot job that follows serves
      an exact rollup if and only if in every hour that it credits a credit is stamped later
      than every exposure, which the replay has published already. */
  lemma HalfLandedReplayIff(i: Input)
    requires UniqueExposures(i.exposures) && i.exposures != []
    ensures Exact(EngineJob(ReplayJob(HalfLanded(i)), i)) <==> CreditsOutlast(i)
  {
    hide HotRows, ReconRows, HalfLanded, ReplayJob, EngineJob, Inv, DirtyNow, Recording, ItemsOf, HotItems, Exact,
         StampsRise, UniqueExposures, Next, CreditsOutlast;
    var t := ReplayJob(HalfLanded(i));
    HalfReplayed(i);
    var u := HotLoads(i, t);
    RefreshExactIff(t, u);
    HalfItems(i, t);
    if CreditsOutlast(i) { OutlastRises(i, t, u); }
    if StampsRise(t, u) { RisingOutlasts(i, t, u); }
  }

  lemma HalfItems(i: Input, t: State)
    requires Inv(t, Open({}, {})) && t.exposures == AllExposures(i) && t.rows == {}
    ensures forall x :: x in ItemsOf(t) <==> x.Aired? && x.e in i.exposures
  {
    hide ItemsOf, Backed, Covered, Stamped, Honest, Versioned, UniqueExposures;
    forall x ensures x in ItemsOf(t) <==> x.Aired? && x.e in i.exposures { ItemOfState(t, x); }
  }

  lemma OutlastRises(i: Input, t: State, u: State)
    requires CreditsOutlast(i) && ItemsOf(u) == HotItems(i)
    requires forall x :: x in ItemsOf(t) <==> x.Aired? && x.e in i.exposures
    ensures StampsRise(t, u)
  {
    hide HotRows, ItemsOf, RowAt, RowOf, MaxStamp, HotItems;
    forall x ensures x in ItemsOf(t) ==> x in ItemsOf(u) { HotItemIs(i, x); }
    forall k | Published(t, k) && RowAt(u, k) != RowAt(t, k)
      ensures RowAt(t, k).Some? && RowAt(u, k).Some?
      ensures RowAt(t, k).value.reportedAt < RowAt(u, k).value.reportedAt
    {
      RowAtIs(t, k);
      RowAtIs(u, k);
      var z := NewAt(t, u, k);
      HotItemIs(i, z);
      assert OutlastedAt(i, KeyOf(z.e));
      var y, f :| OutlastsAll(i, y, f) && KeyOf(f) == k;
      HotItemIs(i, Credited(y, f));
      LatestIsAtLeast(u, Credited(y, f));
      MaxStampIs(ItemsAt(ItemsOf(t), k));
    }
  }

  lemma RisingOutlasts(i: Input, t: State, u: State)
    requires StampsRise(t, u) && ItemsOf(u) == HotItems(i) && Inv(t, Open({}, {})) && DirtyNow(t) == {}
    requires forall x :: x in ItemsOf(t) <==> x.Aired? && x.e in i.exposures
    ensures CreditsOutlast(i)
  {
    hide HotRows, ItemsOf, RowAt, RowOf, MaxStamp, HotItems, Inv, DirtyNow, OutlastedAt;
    forall x ensures x in ItemsOf(t) ==> x in ItemsOf(u) { HotItemIs(i, x); }
    forall y, e | y in HotRows(i) && e in i.exposures && Credits(y, e) ensures OutlastedAt(i, KeyOf(e)) {
      var k := KeyOf(e);
      var before, after := ItemsAt(ItemsOf(t), k), ItemsAt(ItemsOf(u), k);
      HotItemIs(i, Credited(y, e));
      LatestIsAtLeast(t, Aired(e));
      RowAtIs(t, k);
      RowAtIs(u, k);
      assert Aired(e) in before && before <= after && Credited(y, e) in after && Credited(y, e) !in before;
      RowsCount(k, before, after, Credited(y, e));
      CleanIsPublished(t, k);
      MaxStampIs(before);
      MaxStampIs(after);
      var z :| z in after && z.Stamp() == MaxStamp(after);
      HotItemIs(i, z);
      assert z.Credited?;
      ItOutlasts(i, t, z);
    }
  }

  lemma ItOutlasts(i: Input, t: State, z: Item)
    requires z.Credited? && z.a in HotRows(i) && z.e in i.exposures && Credits(z.a, z.e)
    requires forall x :: x in ItemsOf(t) <==> x.Aired? && x.e in i.exposures
    requires forall x :: x in ItemsAt(ItemsOf(t), z.Key()) ==> x.Stamp() < z.Stamp()
    ensures OutlastedAt(i, z.Key())
  {
    hide HotRows, ItemsOf;
    forall g | g in i.exposures && KeyOf(g) == KeyOf(z.e) ensures g.ingestTime < z.a.processedAt {
      assert Aired(g) in ItemsAt(ItemsOf(t), z.Key());
    }
    assert OutlastsAll(i, z.a, z.e);
  }

  /** An input on which it does harm: an exposure of 23:00 that arrives at 02:00, and a visit
      of 01:00 that arrives in a minute and is credited to it by the hot pass. */
  function LateInput(): Input { Input([LateExposure()], [PromptVisit()], 4 * HOUR_MS) }
  function LateExposure(): Exposure { Exposure(1, 23 * HOUR_MS, 26 * HOUR_MS, 7, 100, 0, 0, 0, 500) }
  function PromptVisit(): Resolved {
    Resolved(Conversion(1, 25 * HOUR_MS, 25 * HOUR_MS + 60_000, 0, 0, SiteVisit, 0, None), 100, ByDevice, false, 1)
  }

  lemma VisitIsCredited()
    ensures exists y :: y in HotRows(LateInput()) && Credits(y, LateExposure())
  {
    hide OneRow, EngineCandidate, LastTouch, HotRows, CandidateHouseholds;
    var i, c := LateInput(), PromptVisit();
    var own := ExposuresAt(i.exposures, c.householdId);
    OneRowExactly(i.resolved, c);
    assert c in i.resolved && LateExposure() in i.exposures;
    assert c in OneRow(i.resolved);
    EngineIsOracle(i.exposures, i.resolved, c, i.lateness);
    ExposuresAtIs(i.exposures, c.householdId, LateExposure());
    CreditMeaning(own, c, HOT_WINDOW, []);
    var y := EngineCandidate(i.exposures, i.resolved, c, i.lateness).row;
    assert Eligible(LateExposure(), c, HOT_WINDOW);
    assert y.attributed;
    var e :| e in own && e.exposureId == y.exposureId.value;
    ExposuresAtIs(i.exposures, c.householdId, e);
    HotIs(i);
    EngineRowRes(i, c);
    assert y in HotRows(i);
  }

  lemma EngineRowRes(i: Input, c: Resolved)
    requires c in OneRow(i.resolved)
    ensures EngineCandidate(i.exposures, i.resolved, c, i.lateness).row.res == c
  {
    hide EngineCandidate, OneRow;
    UncreditedHasNoExposure(i, c);
  }

  lemma NoneOutlasts(z: Attributed, f: Exposure)
    ensures !OutlastsAll(LateInput(), z, f)
  {
    hide HotRows, OneRow, EngineCandidate;
    HotIs(LateInput());
    InOneRow(LateInput().resolved, z.res);
    assert LateInput().exposures[0] == LateExposure();
  }

  lemma HalfLandedReplayExample()
    ensures !Exact(EngineJob(ReplayJob(HalfLanded(LateInput())), LateInput()))
  {
    hide HotRows, EngineJob, ReplayJob, HalfLanded, Exact, OneRow, EngineCandidate;
    var i := LateInput();
    HalfLandedReplayIff(i);
    VisitIsCredited();
    var y :| y in HotRows(i) && Credits(y, LateExposure());
    forall z, f ensures !OutlastsAll(i, z, f) { NoneOutlasts(z, f); }
    assert !OutlastedAt(i, KeyOf(LateExposure()));
  }
}
