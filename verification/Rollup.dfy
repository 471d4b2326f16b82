/** The hourly rollup (reconcile/rollup.py): what one aggregation query computes, what
    `FINAL` keeps of a versioned-replace table, and which keys a refresh recomputes. A
    serving table is the set of rows inserted so far: a second copy of a row has its key
    and its version, so it never changes what `FINAL` keeps. */
module Rollup {
  import opened Rows
  import opened Orders

  /** One row of the rollup. */
  datatype Key = Key(campaign: Id, hour: int)

  datatype Hourly = Hourly(key: Key, spend: nat, exposures: nat, conversions: nat, purchases: nat,
                           siteVisits: nat, revenue: nat, reportedAt: Time)

  /** One row of the two bookkeeping tables. */
  datatype Stamp = Stamp(key: Key, version: Time)

  function KeyOf(e: Exposure): Key { Key(e.campaignId, HourOf(e.eventTime)) }

  // ---------- FINAL ----------

  /** The rows of the highest version of their sort key. Nothing is said about which of
      two rows that share a key and a version a merge keeps: both are here. */
  function Final<R(!new, ==), K(==)>(rows: set<R>, key: R -> K, version: R -> Time): set<R> {
    set r | r in rows && forall q :: q in rows && key(q) == key(r) ==> version(q) <= version(r)
  }

  function CidOf(a: Attributed): Id { a.Cid() }
  function ProcessedAt(a: Attributed): Time { a.processedAt }
  function StampKey(s: Stamp): Key { s.key }
  function StampVersion(s: Stamp): Time { s.version }
  function HourlyKey(h: Hourly): Key { h.key }
  function ReportedAt(h: Hourly): Time { h.reportedAt }

  function FinalRows(rows: set<Attributed>): set<Attributed> { Final(rows, CidOf, ProcessedAt) }
  function FinalStamps(rows: set<Stamp>): set<Stamp> { Final(rows, StampKey, StampVersion) }
  function FinalHourly(rows: set<Hourly>): set<Hourly> { Final(rows, HourlyKey, ReportedAt) }

  /** A background merge drops superseded rows, and no read through `FINAL` notices. */
  lemma MergesAreInvisible<R(!new), K>(before: set<R>, after: set<R>, key: R -> K, version: R -> Time)
    requires after <= before
    requires forall r :: r in before && r !in after ==>
               exists q :: q in after && key(q) == key(r) && version(q) > version(r)
    ensures Final(after, key, version) == Final(before, key, version)
  {
    forall r ensures r in Final(after, key, version) <==> r in Final(before, key, version) {
      if r in Final(after, key, version) {
        forall q | q in before && key(q) == key(r) ensures version(q) <= version(r) {
          if q !in after {
            var p :| p in after && key(p) == key(q) && version(p) > version(q);
          }
        }
      }
      assert forall q :: q in after ==> q in before;
    }
  }

  // ---------- what is aggregated ----------

  /** A row of the union that the query groups: an exposure, or a credit joined to the
      exposure it names. */
  datatype Item = Aired(e: Exposure) | Credited(a: Attributed, e: Exposure)
  {
    function Key(): Key { KeyOf(e) }
    function Stamp(): Time { if Aired? then e.ingestTime else a.processedAt }
  }

  predicate Credits(a: Attributed, e: Exposure) { a.attributed && a.exposureId == Some(e.exposureId) }

  /** The exposures, and the credits joined to them. */
  function Joined(rows: set<Attributed>, exposures: set<Exposure>): set<Item> {
    (set e | e in exposures :: Aired(e)) +
    (set a, e | a in rows && e in exposures && Credits(a, e) :: Credited(a, e))
  }

  /** The union, over FINAL of both tables. Exposures have no version; rows that share
      their sort key are taken to be the same row. */
  function Items(rows: set<Attributed>, exposures: set<Exposure>): set<Item> { Joined(FinalRows(rows), exposures) }

  lemma ItemIs(rows: set<Attributed>, exposures: set<Exposure>, i: Item)
    ensures i in Items(rows, exposures) <==>
            i.e in exposures && (i.Credited? ==> i.a in FinalRows(rows) && Credits(i.a, i.e))
  {
  }

  function ItemsAt(items: set<Item>, k: Key): set<Item> { set i | i in items && i.Key() == k }
  /** The group that a row falls in. */
  function Peers(items: set<Item>, i: Item): (group: set<Item>)
    requires i in items
    ensures i in group
  {
    ItemsAt(items, i.Key())
  }

  function StampsOf(items: set<Item>): set<Time> { set i | i in items :: i.Stamp() }

  datatype Measure = Spend | Exposures | Conversions | Purchases | SiteVisits | Revenue

  function Value(i: Item, m: Measure): nat {
    match i
    case Aired(e) => (match m case Spend => e.spend case Exposures => 1 case _ => 0)
    case Credited(a, _) =>
      match m
      case Conversions => 1
      case Purchases => if a.res.conv.conversionType == Purchase then 1 else 0
      case SiteVisits => if a.res.conv.conversionType == SiteVisit then 1 else 0
      case Revenue => a.res.conv.revenue
      case _ => 0
  }

  ghost function Sum(items: set<Item>, m: Measure): nat {
    if items == {} then 0
    else
      var i :| i in items;
      Value(i, m) + Sum(items - {i}, m)
  }

  /** Exact sums do not depend on the order in which the rows are visited. */
  lemma {:induction false} SumOf(items: set<Item>, i: Item, m: Measure)
    requires i in items
    ensures Sum(items, m) == Value(i, m) + Sum(items - {i}, m)
    decreases |items|
  {
    var j :| j in items && Sum(items, m) == Value(j, m) + Sum(items - {j}, m);
    if j != i {
      SumOf(items - {j}, i, m);
      SumOf(items - {i}, j, m);
      assert items - {j} - {i} == items - {i} - {j};
    }
  }

  lemma {:induction false} SumUnion(a: set<Item>, b: set<Item>, m: Measure)
    requires a !! b
    ensures Sum(a + b, m) == Sum(a, m) + Sum(b, m)
    decreases |a|
  {
    if a == {} {
      assert a + b == b;
    } else {
      var i := Member(a);
      SumOf(a, i, m);
      SumOf(a + b, i, m);
      assert a + b - {i} == (a - {i}) + b;
      SumUnion(a - {i}, b, m);
    }
  }

  // ---------- the same, told on the rows themselves ----------

  /** The campaign hour of a key, in milliseconds. */
  predicate HourHolds(k: Key, e: Exposure) {
    e.campaignId == k.campaign && k.hour * 3_600_000 <= e.eventTime < (k.hour + 1) * 3_600_000
  }

  /** Some row of the conversion is newer. */
  ghost predicate Superseded(a: Attributed, rows: set<Attributed>) {
    exists b :: b in rows && b.res.conv.conversionId == a.res.conv.conversionId && b.processedAt > a.processedAt
  }

  /** The credits to `exposures`: each with its exposure, of the rows that are not superseded. */
  ghost function CreditsTo(rows: set<Attributed>, exposures: set<Exposure>, hotOnly: bool)
    : set<(Attributed, Exposure)>
  {
    set a, e | a in rows && e in exposures && a.attributed && a.exposureId == Some(e.exposureId)
               && !Superseded(a, rows) && (hotOnly ==> a.path == Hot) :: (a, e)
  }

  ghost function TotalSpend(exposures: set<Exposure>): nat {
    if exposures == {} then 0
    else
      var e :| e in exposures;
      e.spend + TotalSpend(exposures - {e})
  }

  ghost function TotalRevenue(credits: set<(Attributed, Exposure)>): nat {
    if credits == {} then 0
    else
      var c :| c in credits;
      c.0.res.conv.revenue + TotalRevenue(credits - {c})
  }

  ghost function OfType(credits: set<(Attributed, Exposure)>, t: ConversionType): set<(Attributed, Exposure)> {
    set c | c in credits && c.0.res.conv.conversionType == t
  }

  /** The six columns of a row that aggregates these exposures and these credits. */
  ghost predicate AddsUp(exposures: set<Exposure>, credits: set<(Attributed, Exposure)>, spend: nat, shown: nat,
                         conversions: nat, purchases: nat, siteVisits: nat, revenue: nat)
  {
    && spend == TotalSpend(exposures) && shown == |exposures|
    && conversions == |credits| && revenue == TotalRevenue(credits)
    && purchases == |OfType(credits, Purchase)| && siteVisits == |OfType(credits, SiteVisit)|
  }

  /** The arrival of an exposure, or the version of a credit, whichever is latest. */
  ghost predicate NewestIs(exposures: set<Exposure>, credits: set<(Attributed, Exposure)>, t: Time) {
    && (forall e :: e in exposures ==> e.ingestTime <= t)
    && (forall c :: c in credits ==> c.0.processedAt <= t)
    && ((exists e :: e in exposures && e.ingestTime == t) || (exists c :: c in credits && c.0.processedAt == t))
  }

  ghost function ExposuresIn(group: set<Item>): set<Exposure> { set i | i in group && i.Aired? :: i.e }
  ghost function CreditsIn(group: set<Item>): set<(Attributed, Exposure)> {
    set i | i in group && i.Credited? :: (i.a, i.e)
  }

  lemma {:induction false} TotalSpendOf(exposures: set<Exposure>, e: Exposure)
    requires e in exposures
    ensures TotalSpend(exposures) == e.spend + TotalSpend(exposures - {e})
    decreases |exposures|
  {
    var f :| f in exposures && TotalSpend(exposures) == f.spend + TotalSpend(exposures - {f});
    if f != e {
      TotalSpendOf(exposures - {f}, e);
      TotalSpendOf(exposures - {e}, f);
      assert exposures - {f} - {e} == exposures - {e} - {f};
    }
  }

  lemma {:induction false} TotalRevenueOf(credits: set<(Attributed, Exposure)>, c: (Attributed, Exposure))
    requires c in credits
    ensures TotalRevenue(credits) == c.0.res.conv.revenue + TotalRevenue(credits - {c})
    decreases |credits|
  {
    var d :| d in credits && TotalRevenue(credits) == d.0.res.conv.revenue + TotalRevenue(credits - {d});
    if d != c {
      TotalRevenueOf(credits - {d}, c);
      TotalRevenueOf(credits - {c}, d);
      assert credits - {d} - {c} == credits - {c} - {d};
    }
  }

  /** What each measure of a group is: spend and exposures of what aired, the rest of what was
      credited. */
  lemma {:induction false} SumsMean(group: set<Item>)
    ensures AddsUp(ExposuresIn(group), CreditsIn(group), Sum(group, Spend), Sum(group, Exposures),
                   Sum(group, Conversions), Sum(group, Purchases), Sum(group, SiteVisits), Sum(group, Revenue))
    decreases |group|
  {
    hide Sum, TotalSpend, TotalRevenue, ExposuresIn, CreditsIn, OfType;
    if group == {} {
      SumsOfNone();
      NothingIn();
    } else {
      var i := Member(group);
      var rest := group - {i};
      SumsMean(rest);
      forall m ensures Sum(group, m) == Value(i, m) + Sum(rest, m) { SumOf(group, i, m); }
      match i
      case Aired(e) => OneMoreAired(group, rest, e);
      case Credited(a, e) => OneMoreCredit(group, rest, a, e);
    }
  }

  lemma OneMoreAired(group: set<Item>, rest: set<Item>, e: Exposure)
    requires Aired(e) in group && rest == group - {Aired(e)}
    ensures CreditsIn(group) == CreditsIn(rest)
    ensures |ExposuresIn(group)| == |ExposuresIn(rest)| + 1
    ensures TotalSpend(ExposuresIn(group)) == e.spend + TotalSpend(ExposuresIn(rest))
  {
    hide TotalSpend;
    var all, left := ExposuresIn(group), ExposuresIn(rest);
    assert Aired(e).e in all && e !in left;
    assert all == left + {e} && all - {e} == left;
    TotalSpendOf(all, e);
  }

  lemma OneMoreCredit(group: set<Item>, rest: set<Item>, a: Attributed, e: Exposure)
    requires Credited(a, e) in group && rest == group - {Credited(a, e)}
    ensures ExposuresIn(group) == ExposuresIn(rest)
    ensures |CreditsIn(group)| == |CreditsIn(rest)| + 1
    ensures TotalRevenue(CreditsIn(group)) == a.res.conv.revenue + TotalRevenue(CreditsIn(rest))
    ensures forall t :: |OfType(CreditsIn(group), t)|
                     == |OfType(CreditsIn(rest), t)| + if a.res.conv.conversionType == t then 1 else 0
  {
    hide TotalRevenue, OfType;
    var all, left := CreditsIn(group), CreditsIn(rest);
    var i := Credited(a, e);
    assert (i.a, i.e) in all && (a, e) !in left;
    assert all == left + {(a, e)} && all - {(a, e)} == left;
    TotalRevenueOf(all, (a, e));
    forall t ensures |OfType(all, t)| == |OfType(left, t)| + if a.res.conv.conversionType == t then 1 else 0 {
      OneMoreOfType(left, (a, e), t);
    }
  }

  lemma OneMoreOfType(credits: set<(Attributed, Exposure)>, c: (Attributed, Exposure), t: ConversionType)
    requires c !in credits
    ensures |OfType(credits + {c}, t)| == |OfType(credits, t)| + if c.0.res.conv.conversionType == t then 1 else 0
  {
    var before, after := OfType(credits, t), OfType(credits + {c}, t);
    if c.0.res.conv.conversionType == t { assert after == before + {c}; } else { assert after == before; }
  }

  lemma NothingIn()
    ensures ExposuresIn({}) == {} && CreditsIn({}) == {} && TotalSpend({}) == 0 && TotalRevenue({}) == 0
    ensures forall t :: OfType({}, t) == {}
  {
  }

  function Max(s: set<int>): (m: int)
    requires s != {}
    ensures m in s && forall x :: x in s ==> x <= m
  {
    var negated := set x | x in s :: -x;
    assert forall x :: x in s ==> -x in negated;
    -Min(negated)
  }

  // ---------- the rollup ----------

  function MaxStamp(items: set<Item>): Time
    requires items != {}
  {
    StampsAreSome(items);
    Max(StampsOf(items))
  }

  lemma StampsAreSome(items: set<Item>)
    requires items != {}
    ensures StampsOf(items) != {}
  {
    var i := Member(items);
    assert i.Stamp() in StampsOf(items);
  }

  /** The group of key `k`. */
  ghost function RowOf(k: Key, group: set<Item>): Hourly
    requires group != {}
  {
    Hourly(k, Sum(group, Spend), Sum(group, Exposures), Sum(group, Conversions), Sum(group, Purchases),
           Sum(group, SiteVisits), Sum(group, Revenue), MaxStamp(group))
  }

  /** The aggregation query: one row per key that has anything to aggregate. */
  ghost function Rebuild(items: set<Item>): set<Hourly> {
    set i | i in items :: RowOf(i.Key(), Peers(items, i))
  }

  lemma RebuildIs(items: set<Item>, h: Hourly)
    ensures h in Rebuild(items) <==> ItemsAt(items, h.key) != {} && h == RowOf(h.key, ItemsAt(items, h.key))
  {
    hide RowOf;
    if h in Rebuild(items) {
      var i :| i in items && h == RowOf(i.Key(), Peers(items, i));
      RowKey(i.Key(), Peers(items, i));
      assert i in ItemsAt(items, h.key);
    } else if ItemsAt(items, h.key) != {} {
      var i := Member(ItemsAt(items, h.key));
      assert i in items && i.Key() == h.key;
    }
  }

  /** Which hour an item falls in, in milliseconds, and what stamp it carries. */
  lemma ItemMeaning(i: Item, k: Key)
    ensures i.Key() == k <==> i.e.campaignId == k.campaign
                              && k.hour * 3_600_000 <= i.e.eventTime < (k.hour + 1) * 3_600_000
    ensures i.Stamp() == match i case Aired(e) => e.ingestTime case Credited(a, _) => a.processedAt
  {
    CalendarIs(i.e.eventTime, k.hour);
  }

  /** The group of a key is the exposures of its campaign hour and the credits to them. */
  lemma GroupMeaning(rows: set<Attributed>, exposures: set<Exposure>, k: Key)
    ensures var es := set e | e in exposures && HourHolds(k, e);
      && ExposuresIn(ItemsAt(Items(rows, exposures), k)) == es
      && CreditsIn(ItemsAt(Items(rows, exposures), k)) == CreditsTo(rows, es, false)
  {
    hide Items;
    var group, es := ItemsAt(Items(rows, exposures), k), set e | e in exposures && HourHolds(k, e);
    forall i ensures i in group <==> HourHolds(k, i.e) && i in Items(rows, exposures) { ItemMeaning(i, k); }
    forall e ensures e in ExposuresIn(group) <==> e in es {
      ItemIs(rows, exposures, Aired(e));
      assert Aired(e) in group ==> Aired(e).e in ExposuresIn(group);
    }
    forall a, e ensures (a, e) in CreditsIn(group) <==> (a, e) in CreditsTo(rows, es, false) {
      ItemIs(rows, exposures, Credited(a, e));
      FinalMeaning(rows, a);
      if Credited(a, e) in group { assert (Credited(a, e).a, Credited(a, e).e) in CreditsIn(group); }
    }
  }

  lemma FinalMeaning(rows: set<Attributed>, a: Attributed)
    ensures a in FinalRows(rows) <==> a in rows && !Superseded(a, rows)
  {
    assert forall b :: b in rows && CidOf(b) == CidOf(a) ==>
             (ProcessedAt(b) <= ProcessedAt(a) <==> !(b.processedAt > a.processedAt));
  }

  /** What readers see of the two versioned bookkeeping tables and of the rollup: per key the
      row with the greatest version. */
  lemma FinalKeysMean(stamps: set<Stamp>, hourly: set<Hourly>, d: Stamp, h: Hourly)
    ensures d in FinalStamps(stamps) <==>
            d in stamps && forall x :: x in stamps && x.key == d.key ==> x.version <= d.version
    ensures h in FinalHourly(hourly) <==>
            h in hourly && forall g :: g in hourly && g.key == h.key ==> g.reportedAt <= h.reportedAt
  {
    assert forall x :: x in stamps ==> StampKey(x) == x.key && StampVersion(x) == x.version;
    assert forall g :: g in hourly ==> HourlyKey(g) == g.key && ReportedAt(g) == g.reportedAt;
  }

  /** What is aggregated: the exposures, and the credits to them. */
  lemma ItemsMean(rows: set<Attributed>, exposures: set<Exposure>, a: Attributed, e: Exposure)
    ensures Aired(e) in Items(rows, exposures) <==> e in exposures
    ensures Credited(a, e) in Items(rows, exposures) <==> (a, e) in CreditsTo(rows, exposures, false)
  {
    hide Items;
    ItemIs(rows, exposures, Aired(e));
    ItemIs(rows, exposures, Credited(a, e));
    FinalMeaning(rows, a);
  }

  /** A row of the rollup, told on the two tables: it adds up the exposures of its campaign
      hour and the credits to them, and is as new as the newest of these. */
  ghost predicate IsHour(h: Hourly, rows: set<Attributed>, exposures: set<Exposure>) {
    var es := set e | e in exposures && HourHolds(h.key, e);
    var cs := CreditsTo(rows, es, false);
    && AddsUp(es, cs, h.spend, h.exposures, h.conversions, h.purchases, h.siteVisits, h.revenue)
    && NewestIs(es, cs, h.reportedAt)
  }

  /** The aggregation query computes exactly those rows, one for every campaign hour in which
      something aired. */
  lemma RebuildMeaning(rows: set<Attributed>, exposures: set<Exposure>)
    ensures forall h :: h in Rebuild(Items(rows, exposures)) <==>
              IsHour(h, rows, exposures) && exists e :: e in exposures && HourHolds(h.key, e)
    ensures forall e :: e in exposures ==> exists h :: h in Rebuild(Items(rows, exposures)) && HourHolds(h.key, e)
  {
    hide RowOf, Items, IsHour;
    var items := Items(rows, exposures);
    forall h ensures h in Rebuild(items) <==>
                     IsHour(h, rows, exposures) && exists e :: e in exposures && HourHolds(h.key, e)
    {
      RebuildIs(items, h);
      HourMeaning(rows, exposures, h);
    }
    forall e | e in exposures ensures exists h :: h in Rebuild(items) && HourHolds(h.key, e) {
      ItemIs(rows, exposures, Aired(e));
      var h := RowOf(KeyOf(e), Peers(items, Aired(e)));
      assert Aired(e).Key() == KeyOf(e);
      assert h in Rebuild(items);
      RowKey(KeyOf(e), Peers(items, Aired(e)));
      ItemMeaning(Aired(e), KeyOf(e));
    }
  }

  lemma HourMeaning(rows: set<Attributed>, exposures: set<Exposure>, h: Hourly)
    ensures ItemsAt(Items(rows, exposures), h.key) != {} <==> exists e :: e in exposures && HourHolds(h.key, e)
    ensures ItemsAt(Items(rows, exposures), h.key) != {} ==>
              (h == RowOf(h.key, ItemsAt(Items(rows, exposures), h.key)) <==> IsHour(h, rows, exposures))
  {
    hide Items, Sum, TotalSpend, TotalRevenue, CreditsTo, HourHolds, MaxStamp, ExposuresIn, CreditsIn, NewestIs;
    var group := ItemsAt(Items(rows, exposures), h.key);
    GroupMeaning(rows, exposures, h.key);
    HourIsHeld(rows, exposures, h.key);
    SumsMean(group);
    if group != {} { LatestIs(group, h.reportedAt); }
  }

  lemma HourIsHeld(rows: set<Attributed>, exposures: set<Exposure>, k: Key)
    ensures ItemsAt(Items(rows, exposures), k) != {} <==> exists e :: e in exposures && HourHolds(k, e)
  {
    hide Items;
    var group := ItemsAt(Items(rows, exposures), k);
    if group != {} {
      var i := Member(group);
      ItemIs(rows, exposures, i);
      ItemMeaning(i, k);
      assert i.e in exposures && HourHolds(k, i.e);
    }
    if e :| e in exposures && HourHolds(k, e) {
      ItemIs(rows, exposures, Aired(e));
      ItemMeaning(Aired(e), k);
      assert Aired(e) in group;
    }
  }

  lemma LatestIs(group: set<Item>, t: Time)
    requires group != {}
    ensures NewestIs(ExposuresIn(group), CreditsIn(group), t) <==> t == MaxStamp(group)
  {
    hide MaxStamp;
    var es, cs, top := ExposuresIn(group), CreditsIn(group), MaxStamp(group);
    MaxStampIs(group);
    forall i | i in group ensures if i.Aired? then i.e in es else (i.a, i.e) in cs {}
    forall e | e in es ensures Aired(e) in group && Aired(e).Stamp() == e.ingestTime {}
    forall c | c in cs ensures Credited(c.0, c.1) in group && Credited(c.0, c.1).Stamp() == c.0.processedAt {}
    var i :| i in group && i.Stamp() == top;
    assert NewestIs(es, cs, top);
  }

  lemma RowKey(k: Key, group: set<Item>)
    requires group != {}
    ensures RowOf(k, group).key == k && RowOf(k, group).reportedAt == MaxStamp(group)
  {
  }

  lemma MaxStampIs(items: set<Item>)
    requires items != {}
    ensures exists i :: i in items && i.Stamp() == MaxStamp(items)
    ensures forall i :: i in items ==> i.Stamp() <= MaxStamp(items)
  {
    StampsAreSome(items);
    var m := MaxStamp(items);
    assert m in StampsOf(items);
    forall i | i in items ensures i.Stamp() <= m { assert i.Stamp() in StampsOf(items); }
  }

  /** The exposures that the dirty filter lets through. */
  function Only(exposures: set<Exposure>, keys: set<Key>): set<Exposure> {
    set e | e in exposures && KeyOf(e) in keys
  }

  /** Filtering the exposures by dirty key, on both sides of the union, recomputes exactly
      the rows that a whole-table rebuild computes for those keys. */
  lemma FilterIsRestriction(rows: set<Attributed>, exposures: set<Exposure>, keys: set<Key>, h: Hourly)
    ensures h in Rebuild(Items(rows, Only(exposures, keys))) <==>
            h.key in keys && h in Rebuild(Items(rows, exposures))
  {
    hide Items, RowOf, Rebuild;
    var part, all := Items(rows, Only(exposures, keys)), Items(rows, exposures);
    RebuildIs(part, h);
    RebuildIs(all, h);
    forall i ensures i in part <==> i in all && i.Key() in keys {
      ItemIs(rows, exposures, i);
      ItemIs(rows, Only(exposures, keys), i);
    }
    if h.key in keys {
      assert ItemsAt(part, h.key) == ItemsAt(all, h.key);
    } else {
      assert ItemsAt(part, h.key) == {};
    }
  }

  /** `group by`, for one group: visiting its rows one by one, in any order, computes the
      rollup row. */
  method Aggregate(k: Key, group: set<Item>) returns (row: Hourly)
    requires group != {}
    ensures row == RowOf(k, group)
    ensures AddsUp(ExposuresIn(group), CreditsIn(group), row.spend, row.exposures, row.conversions, row.purchases,
                   row.siteVisits, row.revenue)
    ensures NewestIs(ExposuresIn(group), CreditsIn(group), row.reportedAt)
  {
    hide Sum, StampsOf, AddsUp, NewestIs;
    var left, n := group, 0;
    var first :| first in group;
    SumsOfNone();
    row := Hourly(k, 0, 0, 0, 0, 0, 0, first.Stamp());
    ghost var seen: set<Item> := {};
    while left != {}
      invariant left <= group && seen == group - left
      invariant row.key == k
      invariant forall i :: i in seen ==> i.Stamp() <= row.reportedAt
      invariant exists i :: i in group && i.Stamp() == row.reportedAt
      invariant row.spend == Sum(seen, Spend) && row.exposures == Sum(seen, Exposures)
      invariant row.conversions == Sum(seen, Conversions) && row.purchases == Sum(seen, Purchases)
      invariant row.siteVisits == Sum(seen, SiteVisits) && row.revenue == Sum(seen, Revenue)
      decreases |left|
    {
      var i :| i in left;
      assert seen + {i} - {i} == seen;
      forall m ensures Sum(seen + {i}, m) == Value(i, m) + Sum(seen, m) { SumOf(seen + {i}, i, m); }
      row := Hourly(k, row.spend + Value(i, Spend), row.exposures + Value(i, Exposures),
                    row.conversions + Value(i, Conversions), row.purchases + Value(i, Purchases),
                    row.siteVisits + Value(i, SiteVisits), row.revenue + Value(i, Revenue),
                    if i.Stamp() > row.reportedAt then i.Stamp() else row.reportedAt);
      seen, left := seen + {i}, left - {i};
    }
    assert seen == group;
    MaxStampIs(group);
    SumsMean(group);
    LatestIs(group, row.reportedAt);
  }

  lemma SumsOfNone()
    ensures forall m :: Sum({}, m) == 0
  {
  }

  // ---------- the bookkeeping ----------

  /** One grouped `insert into rollup_dirty`: per key, the latest stamp of the group. */
  function Recorded(items: set<Item>): set<Stamp> {
    set i | i in items :: Stamp(i.Key(), LatestAt(items, i))
  }

  function LatestAt(items: set<Item>, i: Item): Time
    requires i in items
  {
    MaxStamp(Peers(items, i))
  }

  /** A recording holds the stamp of some row of the key, at least as late as every row. */
  lemma RecordedIs(items: set<Item>)
    ensures forall s :: s in Recorded(items) ==> exists i :: i in items && i.Key() == s.key && i.Stamp() == s.version
    ensures forall i :: i in items ==> exists s :: s in Recorded(items) && s.key == i.Key() && i.Stamp() <= s.version
  {
    hide MaxStamp;
    forall i | i in items
      ensures exists s :: s in Recorded(items) && s.key == i.Key() && i.Stamp() <= s.version
      ensures exists j :: j in items && j.Key() == i.Key() && j.Stamp() == LatestAt(items, i)
    {
      var group := Peers(items, i);
      MaxStampIs(group);
      assert Stamp(i.Key(), LatestAt(items, i)) in Recorded(items);
      var j :| j in group && j.Stamp() == MaxStamp(group);
    }
  }

  /** The latest arrival, or version, among the items of a campaign hour. */
  ghost predicate IsLatestStamp(items: set<Item>, d: Stamp) {
    && (exists i :: i in items && HourHolds(d.key, i.e)
                    && d.version == match i case Aired(e) => e.ingestTime case Credited(a, _) => a.processedAt)
    && (forall i :: i in items && HourHolds(d.key, i.e) ==>
          match i case Aired(e) => e.ingestTime <= d.version case Credited(a, _) => a.processedAt <= d.version)
  }

  /** What a recording holds, on the fields of the rows. */
  lemma RecordedMeaning(items: set<Item>, d: Stamp)
    ensures d in Recorded(items) <==> IsLatestStamp(items, d)
  {
    hide MaxStamp;
    forall i: Item ensures i.Key() == d.key <==> HourHolds(d.key, i.e) { ItemMeaning(i, d.key); }
    if d in Recorded(items) {
      var i :| i in items && d == Stamp(i.Key(), LatestAt(items, i));
      MaxStampIs(Peers(items, i));
      var j :| j in Peers(items, i) && j.Stamp() == d.version;
      assert j in items && HourHolds(d.key, j.e);
      forall k | k in items && HourHolds(d.key, k.e) ensures k.Stamp() <= d.version { assert k in Peers(items, i); }
    }
    if IsLatestStamp(items, d) {
      var i :| i in items && HourHolds(d.key, i.e)
               && d.version == match i case Aired(e) => e.ingestTime case Credited(a, _) => a.processedAt;
      MaxStampIs(Peers(items, i));
      forall j | j in Peers(items, i) ensures j.Stamp() <= d.version { assert j in items && HourHolds(d.key, j.e); }
      assert i.Stamp() == d.version && i in Peers(items, i);
      assert d == Stamp(i.Key(), LatestAt(items, i));
    }
  }

  /** The keys whose data moved: those with no refreshed version, or another one. */
  function DirtyKeys(dirty: set<Stamp>, refreshed: set<Stamp>): set<Stamp> {
    set d | d in FinalStamps(dirty) &&
            ((forall r :: r in FinalStamps(refreshed) ==> r.key != d.key) ||
             (exists r :: r in FinalStamps(refreshed) && r.key == d.key && d.version != r.version))
  }

  /** In other words, the dirty versions that no refresh has stamped. */
  lemma DirtyKeysAre(dirty: set<Stamp>, refreshed: set<Stamp>)
    ensures DirtyKeys(dirty, refreshed) == FinalStamps(dirty) - FinalStamps(refreshed)
  {
    forall d ensures d in DirtyKeys(dirty, refreshed) <==> d in FinalStamps(dirty) && d !in FinalStamps(refreshed) {
      if d in FinalStamps(refreshed) {
        forall r | r in FinalStamps(refreshed) && r.key == d.key ensures r.version == d.version {}
      }
    }
  }

  /** On the fields of the rows: the newest recording of its key, unless that is the newest
      version that a refresh has stamped. */
  ghost predicate IsDirty(d: Stamp, dirty: set<Stamp>, refreshed: set<Stamp>) {
    && d in dirty && (forall x :: x in dirty && x.key == d.key ==> x.version <= d.version)
    && !(d in refreshed && forall x :: x in refreshed && x.key == d.key ==> x.version <= d.version)
  }

  lemma DirtyMeaning(dirty: set<Stamp>, refreshed: set<Stamp>, d: Stamp)
    ensures d in DirtyKeys(dirty, refreshed) <==> IsDirty(d, dirty, refreshed)
  {
    hide DirtyKeys, Final;
    DirtyKeysAre(dirty, refreshed);
    FinalKeysMean(dirty, {}, d, Hourly(d.key, 0, 0, 0, 0, 0, 0, 0));
    FinalKeysMean(refreshed, {}, d, Hourly(d.key, 0, 0, 0, 0, 0, 0, 0));
  }
}
