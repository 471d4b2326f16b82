/** Device graph lookup and the shared-IP fan-out (resolve/index.py, resolve/resolver.py),
    and what the whole hot pass conserves. */
module Resolve {
  import opened Rows
  import opened Orders
  import opened Leaf
  import opened Collapse
  import opened Engine
  import opened Dataflow
  import opened Parity

  datatype Device = Device(deviceId: Id)
  datatype Household = Household(householdId: Id, devices: seq<Device>, ips: seq<Id>)
  datatype GraphIndex = GraphIndex(deviceOf: map<Id, Id>, ownersOf: map<Id, seq<Id>>)

  // ---------- the index ----------

  /** No later record is of the same household. */
  ghost predicate LastWrite(households: seq<Household>, k: nat)
    requires k < |households|
  {
    forall j :: k < j < |households| ==> households[j].householdId != households[k].householdId
  }

  /** Household `a` came in before household `b` did, if `b` did at all. */
  ghost predicate CameInBefore(households: seq<Household>, a: Id, b: Id) {
    exists i :: 0 <= i < |households| && households[i].householdId == a
                && forall j :: 0 <= j <= i ==> households[j].householdId != b
  }

  /** The current record of a household: the last one written. */
  function CurrentRecord(households: seq<Household>, id: Id): Option<Household> {
    if households == [] then None
    else if Last(households).householdId == id then Some(Last(households))
    else CurrentRecord(Init(households), id)
  }

  /** Household ids in the order in which they first came in. */
  function HouseholdIds(households: seq<Household>): seq<Id> {
    if households == [] then []
    else
      var prev, id := HouseholdIds(Init(households)), Last(households).householdId;
      if id in prev then prev else prev + [id]
  }

  predicate ListsDevice(h: Option<Household>, device: Id) { h.Some? && Device(device) in h.value.devices }
  predicate ListsIp(h: Option<Household>, ip: Id) { h.Some? && ip in h.value.ips }

  /** The last of `ids` whose current record lists the device. */
  function DeviceOwner(households: seq<Household>, ids: seq<Id>, device: Id): Option<Id> {
    if ids == [] then None
    else if ListsDevice(CurrentRecord(households, Last(ids)), device) then Some(Last(ids))
    else DeviceOwner(households, Init(ids), device)
  }

  /** Every one of `ids` whose current record lists the IP. */
  function IpOwners(households: seq<Household>, ids: seq<Id>, ip: Id): set<Id> {
    set id | id in ids && ListsIp(CurrentRecord(households, id), ip)
  }

  function Lookup<V>(m: map<Id, V>, k: Id): Option<V> { if k in m then Some(m[k]) else None }
  function Members(m: map<Id, set<Id>>, k: Id): set<Id> { if k in m then m[k] else {} }

  /** The last record of a household replaces the earlier ones. */
  lemma {:induction false} CurrentIsLastWrite(households: seq<Household>, id: Id)
    ensures forall k :: 0 <= k < |households| && households[k].householdId == id && LastWrite(households, k) ==>
              CurrentRecord(households, id) == Some(households[k])
    ensures CurrentRecord(households, id).Some? ==>
              exists k :: 0 <= k < |households| && LastWrite(households, k) && households[k].householdId == id
                          && CurrentRecord(households, id) == Some(households[k])
    ensures CurrentRecord(households, id).None? ==>
              forall k :: 0 <= k < |households| ==> households[k].householdId != id
  {
    if households != [] {
      var n, init := |households| - 1, Init(households);
      CurrentIsLastWrite(init, id);
      if households[n].householdId == id {
        assert LastWrite(households, n);
      } else {
        forall k | 0 <= k < n && households[k].householdId == id
          ensures LastWrite(households, k) <==> LastWrite(init, k)
        {
          assert forall j :: k < j < n ==> init[j] == households[j];
        }
      }
    }
  }

  lemma {:induction false} HouseholdIdsAre(households: seq<Household>)
    ensures forall id :: id in HouseholdIds(households) <==> CurrentRecord(households, id).Some?
    ensures Distinct(HouseholdIds(households))
  {
    if households != [] { HouseholdIdsAre(Init(households)); }
  }

  lemma {:induction false} HouseholdIdsInOrder(households: seq<Household>, m: nat, n: nat)
    requires m < n < |HouseholdIds(households)|
    ensures CameInBefore(households, HouseholdIds(households)[m], HouseholdIds(households)[n])
  {
    var prev, ids := HouseholdIds(Init(households)), HouseholdIds(households);
    HouseholdIdsAre(Init(households));
    if n < |prev| {
      HouseholdIdsInOrder(Init(households), m, n);
    } else {
      assert prev[m] in prev && ids[n] !in prev;
      CurrentIsLastWrite(Init(households), prev[m]);
      CurrentIsLastWrite(Init(households), ids[n]);
    }
    var i :| 0 <= i < |Init(households)| && Init(households)[i].householdId == ids[m]
             && forall j :: 0 <= j <= i ==> Init(households)[j].householdId != ids[n];
    assert households[i].householdId == ids[m];
    assert forall j :: 0 <= j <= i ==> households[j] == Init(households)[j];
  }

  lemma {:induction false} DeviceOwnerIs(households: seq<Household>, ids: seq<Id>, device: Id)
    ensures DeviceOwner(households, ids, device).None? ==>
              forall n :: 0 <= n < |ids| ==> !ListsDevice(CurrentRecord(households, ids[n]), device)
    ensures DeviceOwner(households, ids, device).Some? ==>
              exists n :: 0 <= n < |ids| && DeviceOwner(households, ids, device) == Some(ids[n])
                          && ListsDevice(CurrentRecord(households, ids[n]), device)
                          && forall m :: n < m < |ids| ==> !ListsDevice(CurrentRecord(households, ids[m]), device)
  {
    if ids != [] {
      DeviceOwnerIs(households, Init(ids), device);
      if !ListsDevice(CurrentRecord(households, Last(ids)), device)
         && DeviceOwner(households, Init(ids), device).Some? {
        var n :| 0 <= n < |Init(ids)| && DeviceOwner(households, Init(ids), device) == Some(Init(ids)[n])
                 && ListsDevice(CurrentRecord(households, Init(ids)[n]), device)
                 && forall m :: n < m < |Init(ids)| ==>
                      !ListsDevice(CurrentRecord(households, Init(ids)[m]), device);
        assert ids[n] == Init(ids)[n];
        forall m | n < m < |ids| ensures !ListsDevice(CurrentRecord(households, ids[m]), device) {
          assert m < |Init(ids)| ==> ids[m] == Init(ids)[m];
        }
      }
    }
  }

  /** Whom a device belongs to, by the records alone: of the households whose last record lists
      it, the one that came in last; to nobody if there is none. */
  ghost predicate OwnsDevice(households: seq<Household>, owner: Option<Id>, device: Id) {
    match owner
    case None =>
      forall k :: 0 <= k < |households| && LastWrite(households, k) ==> Device(device) !in households[k].devices
    case Some(id) =>
      && (exists k :: 0 <= k < |households| && LastWrite(households, k) && households[k].householdId == id
                      && Device(device) in households[k].devices)
      && forall k :: 0 <= k < |households| && LastWrite(households, k) && Device(device) in households[k].devices
                     && households[k].householdId != id ==>
           CameInBefore(households, households[k].householdId, id)
  }

  /** Whom an IP belongs to: every household whose last record lists it. */
  ghost predicate OwnsIp(households: seq<Household>, owner: Id, ip: Id) {
    exists k :: 0 <= k < |households| && LastWrite(households, k) && households[k].householdId == owner
                && ip in households[k].ips
  }

  lemma DeviceOwnerMeaning(households: seq<Household>, device: Id)
    ensures OwnsDevice(households, DeviceOwner(households, HouseholdIds(households), device), device)
  {
    hide HouseholdIds, DeviceOwner, CurrentRecord, LastWrite, CameInBefore;
    var ids := HouseholdIds(households);
    var owner := DeviceOwner(households, ids, device);
    HouseholdIdsAre(households);
    DeviceOwnerIs(households, ids, device);
    forall k | 0 <= k < |households| && LastWrite(households, k) && Device(device) in households[k].devices
      ensures owner.Some? && ListsDevice(CurrentRecord(households, owner.value), device)
      ensures households[k].householdId == owner.value ||
              CameInBefore(households, households[k].householdId, owner.value)
    {
      var id := households[k].householdId;
      CurrentIsLastWrite(households, id);
      assert id in ids;
      var m :| 0 <= m < |ids| && ids[m] == id;
      assert ListsDevice(CurrentRecord(households, ids[m]), device);
      var n :| 0 <= n < |ids| && owner == Some(ids[n]) && ListsDevice(CurrentRecord(households, ids[n]), device)
               && forall l :: n < l < |ids| ==> !ListsDevice(CurrentRecord(households, ids[l]), device);
      if m < n { HouseholdIdsInOrder(households, m, n); }
    }
    if owner.Some? { CurrentIsLastWrite(households, owner.value); }
  }

  lemma IpOwnersMeaning(households: seq<Household>, ip: Id, id: Id)
    ensures id in IpOwners(households, HouseholdIds(households), ip) <==> OwnsIp(households, id, ip)
  {
    hide HouseholdIds, CurrentRecord, LastWrite;
    HouseholdIdsAre(households);
    CurrentIsLastWrite(households, id);
  }

  ghost predicate HoldsLastWrites(latest: map<Id, Household>, households: seq<Household>) {
    && (forall id :: id in latest ==> exists k :: 0 <= k < |households| && households[k].householdId == id)
    && forall k :: 0 <= k < |households| && LastWrite(households, k) ==>
         Lookup(latest, households[k].householdId) == Some(households[k])
  }

  ghost predicate InFirstWriteOrder(ids: seq<Id>, households: seq<Household>) {
    forall m, n :: 0 <= m < n < |ids| ==> CameInBefore(households, ids[m], ids[n])
  }

  /** The `latest` dict: last write per household id, in first-write order. */
  method LatestRecords(households: seq<Household>) returns (ids: seq<Id>, latest: map<Id, Household>)
    ensures ids == HouseholdIds(households)
    ensures forall id :: id in ids <==> id in latest
    ensures forall id :: Lookup(latest, id) == CurrentRecord(households, id)
    ensures HoldsLastWrites(latest, households) && InFirstWriteOrder(ids, households)
  {
    ids, latest := [], map[];
    for i := 0 to |households|
      invariant ids == HouseholdIds(households[..i])
      invariant forall id :: id in ids <==> id in latest
      invariant forall id :: Lookup(latest, id) == CurrentRecord(households[..i], id)
    {
      var h := households[i];
      assert Init(households[..i + 1]) == households[..i] && Last(households[..i + 1]) == h;
      if h.householdId !in latest { ids := ids + [h.householdId]; }
      latest := latest[h.householdId := h];
    }
    assert households[..|households|] == households;
    forall k | 0 <= k < |households| && LastWrite(households, k)
      ensures Lookup(latest, households[k].householdId) == Some(households[k])
    {
      CurrentIsLastWrite(households, households[k].householdId);
    }
    forall id | id in latest ensures exists k :: 0 <= k < |households| && households[k].householdId == id {
      assert Lookup(latest, id) == CurrentRecord(households, id);
      CurrentIsLastWrite(households, id);
    }
    forall m, n | 0 <= m < n < |ids| ensures CameInBefore(households, ids[m], ids[n]) {
      HouseholdIdsInOrder(households, m, n);
    }
  }

  /** What `FromHouseholds` builds. */
  ghost predicate BuiltFrom(index: GraphIndex, households: seq<Household>) {
    && (forall d :: Lookup(index.deviceOf, d) == DeviceOwner(households, HouseholdIds(households), d))
    && (forall ip :: ip in index.ownersOf <==> IpOwners(households, HouseholdIds(households), ip) != {})
    && (forall ip :: ip in index.ownersOf ==>
      index.ownersOf[ip] == SortedIds(IpOwners(households, HouseholdIds(households), ip)))
  }

  /** The index on the records alone. An IP has the households whose last record lists it,
      ascending; a device has its owner. */
  ghost predicate IndexesRecords(index: GraphIndex, households: seq<Household>) {
    && (forall d :: OwnsDevice(households, Lookup(index.deviceOf, d), d))
    && (forall ip, id :: OwnsIp(households, id, ip) <==> ip in index.ownersOf && id in index.ownersOf[ip])
    && (forall ip :: ip in index.ownersOf ==> index.ownersOf[ip] != [])
    && (forall ip, p, q :: ip in index.ownersOf && 0 <= p < q < |index.ownersOf[ip]| ==>
          index.ownersOf[ip][p] < index.ownersOf[ip][q])
  }

  lemma IndexMeaning(households: seq<Household>, index: GraphIndex)
    requires BuiltFrom(index, households)
    ensures IndexesRecords(index, households)
  {
    hide HouseholdIds, DeviceOwner, IpOwners, OwnsDevice, OwnsIp;
    forall d ensures OwnsDevice(households, Lookup(index.deviceOf, d), d) { DeviceOwnerMeaning(households, d); }
    forall ip, id ensures OwnsIp(households, id, ip) <==> ip in index.ownersOf && id in index.ownersOf[ip] {
      IpOwnersMeaning(households, ip, id);
      var owners := IpOwners(households, HouseholdIds(households), ip);
      assert ip in index.ownersOf <==> owners != {};
      assert id in owners ==> owners != {};
    }
  }

  method FromHouseholds(households: seq<Household>) returns (index: GraphIndex)
    ensures BuiltFrom(index, households)
    ensures WellFormedIndex(index)
    ensures IndexesRecords(index, households)
  {
    hide HouseholdIds, CurrentRecord, HoldsLastWrites, InFirstWriteOrder, IndexesRecords;
    var ids, latest := LatestRecords(households);
    var deviceOf: map<Id, Id> := map[];
    var owners: map<Id, set<Id>> := map[];
    for i := 0 to |ids|
      invariant forall d :: Lookup(deviceOf, d) == DeviceOwner(households, ids[..i], d)
      invariant forall ip :: Members(owners, ip) == IpOwners(households, ids[..i], ip)
      invariant forall ip :: ip in owners ==> owners[ip] != {}
    {
      var id := ids[i];
      assert id in ids;
      var h := latest[id];
      assert Lookup(latest, id) == Some(h);
      assert Init(ids[..i + 1]) == ids[..i] && Last(ids[..i + 1]) == id;
      deviceOf := AddDevices(deviceOf, id, h.devices);
      owners := AddIps(owners, id, h.ips);
      forall ip { OneMoreOwner(households, ids[..i], id, ip); }
      assert ids[..i] + [id] == ids[..i + 1];
    }
    assert ids[..|ids|] == ids;
    forall ip ensures ip in owners <==> IpOwners(households, ids, ip) != {} {
      assert Members(owners, ip) == IpOwners(households, ids, ip);
    }
    forall ip | ip in owners ensures owners[ip] == IpOwners(households, ids, ip) {
      assert Members(owners, ip) == IpOwners(households, ids, ip);
    }
    index := GraphIndex(deviceOf, map ip | ip in owners :: SortedIds(owners[ip]));
    IndexMeaning(households, index);
  }

  lemma OneMoreOwner(households: seq<Household>, ids: seq<Id>, id: Id, ip: Id)
    ensures IpOwners(households, ids + [id], ip)
         == IpOwners(households, ids, ip) + (if ListsIp(CurrentRecord(households, id), ip) then {id} else {})
  {
  }

  method AddDevices(deviceOf: map<Id, Id>, id: Id, devices: seq<Device>) returns (r: map<Id, Id>)
    ensures forall d :: Lookup(r, d) == if Device(d) in devices then Some(id) else Lookup(deviceOf, d)
  {
    r := deviceOf;
    for i := 0 to |devices|
      invariant forall d :: Lookup(r, d) == if Device(d) in devices[..i] then Some(id) else Lookup(deviceOf, d)
    {
      assert devices[..i + 1] == devices[..i] + [devices[i]];
      r := r[devices[i].deviceId := id];
      assert Device(devices[i].deviceId) == devices[i];
    }
    assert devices[..|devices|] == devices;
  }

  method AddIps(owners: map<Id, set<Id>>, id: Id, ips: seq<Id>) returns (r: map<Id, set<Id>>)
    requires forall ip :: ip in owners ==> owners[ip] != {}
    ensures forall ip :: Members(r, ip) == Members(owners, ip) + (if ip in ips then {id} else {})
    ensures forall ip :: ip in r ==> r[ip] != {}
  {
    r := owners;
    for i := 0 to |ips|
      invariant forall ip :: Members(r, ip) == Members(owners, ip) + (if ip in ips[..i] then {id} else {})
      invariant forall ip :: ip in r ==> r[ip] != {}
    {
      assert ips[..i + 1] == ips[..i] + [ips[i]];
      r := r[ips[i] := Members(r, ips[i]) + {id}];
    }
    assert ips[..|ips|] == ips;
  }

  // ---------- resolution ----------

  /** Owners come sorted, distinct and at least one. */
  ghost predicate WellFormedIndex(index: GraphIndex) {
    forall ip :: ip in index.ownersOf ==> index.ownersOf[ip] != [] && Ascending(index.ownersOf[ip])
  }

  /** Device hit first, then the IP's owners: one row each. */
  function ResolveOne(conv: Conversion, index: GraphIndex): seq<Resolved> {
    if conv.deviceId in index.deviceOf then
      [Resolved(conv, index.deviceOf[conv.deviceId], ByDevice, false, 1)]
    else
      var owners := if conv.ip in index.ownersOf then index.ownersOf[conv.ip] else [];
      if owners == [] then []
      else
        seq(|owners|, i requires 0 <= i < |owners| => Resolved(conv, owners[i], ByIp, |owners| > 1, |owners|))
  }

  /** In terms of the graph: a listed device decides alone, whatever its IP; otherwise there
      is one row per household that lists the IP, ascending, each marked with their number. */
  lemma ResolvesByGraph(households: seq<Household>, index: GraphIndex, conv: Conversion)
    requires BuiltFrom(index, households)
    ensures var rows, ids := ResolveOne(conv, index), HouseholdIds(households);
      match DeviceOwner(households, ids, conv.deviceId)
      case Some(h) => rows == [Resolved(conv, h, ByDevice, false, 1)]
      case None =>
        && HouseholdsOf(rows) == SortedIds(IpOwners(households, ids, conv.ip))
        && forall r :: r in rows ==>
             r.conv == conv && r.resolution == ByIp && r.candidateCount == |rows| && (r.ambiguous <==> |rows| > 1)
  {
    hide HouseholdIds, DeviceOwner, IpOwners, Ascending;
    var rows, ids := ResolveOne(conv, index), HouseholdIds(households);
    assert Lookup(index.deviceOf, conv.deviceId) == DeviceOwner(households, ids, conv.deviceId);
    if conv.deviceId !in index.deviceOf {
      NoOwnersNoRows();
      assert conv.ip in index.ownersOf <==> IpOwners(households, ids, conv.ip) != {};
      assert HouseholdsOf(rows) == SortedIds(IpOwners(households, ids, conv.ip));
    }
  }

  /** The same on the records alone. */
  lemma ResolveMeaning(households: seq<Household>, index: GraphIndex, conv: Conversion)
    requires BuiltFrom(index, households)
    ensures (exists h :: OwnsDevice(households, Some(h), conv.deviceId)
                         && ResolveOne(conv, index) == [Resolved(conv, h, ByDevice, false, 1)])
         || (OwnsDevice(households, None, conv.deviceId)
             && forall r :: r in ResolveOne(conv, index) ==>
                  r.conv == conv && r.resolution == ByIp && r.candidateCount == |ResolveOne(conv, index)|
                  && (r.ambiguous <==> |ResolveOne(conv, index)| > 1))
    ensures OwnsDevice(households, None, conv.deviceId) ==>
              forall h :: h in HouseholdsOf(ResolveOne(conv, index)) <==> OwnsIp(households, h, conv.ip)
    ensures forall p, q :: 0 <= p < q < |ResolveOne(conv, index)| ==>
              ResolveOne(conv, index)[p].householdId < ResolveOne(conv, index)[q].householdId
  {
    hide OwnsIp, BuiltFrom, CameInBefore, LastWrite;
    IndexMeaning(households, index);
    var rows := ResolveOne(conv, index);
    if conv.deviceId in index.deviceOf {
      var h := index.deviceOf[conv.deviceId];
      assert Lookup(index.deviceOf, conv.deviceId) == Some(h);
      assert rows == [Resolved(conv, h, ByDevice, false, 1)];
      assert !OwnsDevice(households, None, conv.deviceId);
    } else {
      assert Lookup(index.deviceOf, conv.deviceId) == None;
      var owners := if conv.ip in index.ownersOf then index.ownersOf[conv.ip] else [];
      assert HouseholdsOf(rows) == owners;
    }
  }

  lemma NoOwnersNoRows()
    ensures SortedIds({}) == []
  {
  }

  function ResolveAll(convs: seq<Conversion>, index: GraphIndex): seq<Resolved> {
    if convs == [] then [] else ResolveAll(Init(convs), index) + ResolveOne(Last(convs), index)
  }

  method ResolveStream(convs: seq<Conversion>, index: GraphIndex) returns (out: seq<Resolved>)
    ensures out == ResolveAll(convs, index)
  {
    out := [];
    for i := 0 to |convs|
      invariant out == ResolveAll(convs[..i], index)
    {
      assert Init(convs[..i + 1]) == convs[..i] && Last(convs[..i + 1]) == convs[i];
      out := out + ResolveOne(convs[i], index);
    }
    assert convs[..|convs|] == convs;
  }

  /** Conversions are resolved one by one, in order. */
  lemma {:induction false} ResolveAllAppends(x: seq<Conversion>, y: seq<Conversion>, index: GraphIndex)
    ensures ResolveAll(x + y, index) == ResolveAll(x, index) + ResolveAll(y, index)
    ensures |y| == 1 ==> ResolveAll(y, index) == ResolveOne(y[0], index)
  {
    hide ResolveOne;
    if y == [] {
      assert x + y == x;
    } else {
      ResolveAllAppends(x, Init(y), index);
      assert Init(x + y) == x + Init(y) && Last(x + y) == Last(y);
    }
  }

  lemma {:induction false} ResolveAllIs(convs: seq<Conversion>, index: GraphIndex, r: Resolved)
    ensures r in ResolveAll(convs, index) <==> r.conv in convs && r in ResolveOne(r.conv, index)
  {
    if convs != [] {
      ResolveAllIs(Init(convs), index, r);
      assert convs == Init(convs) + [Last(convs)];
    }
  }

  /** Re-sends of a conversion are exact. */
  ghost predicate ExactResends(convs: seq<Conversion>) {
    forall a, b :: a in convs && b in convs && a.conversionId == b.conversionId ==> a == b
  }

  predicate Resolvable(conv: Conversion, index: GraphIndex) { ResolveOne(conv, index) != [] }

  /** The rows of a conversion: one per owner, each carrying the number of owners. */
  lemma FanOutIs(convs: seq<Conversion>, index: GraphIndex, r: Resolved)
    requires ExactResends(convs) && WellFormedIndex(index) && r in ResolveAll(convs, index)
    ensures forall s :: s in ResolveAll(convs, index) && s.Cid() == r.Cid() ==> s in ResolveOne(r.conv, index)
    ensures forall i :: 0 <= i < |ResolveOne(r.conv, index)| ==>
        ResolveOne(r.conv, index)[i] in ResolveAll(convs, index)
    ensures r.candidateCount == |ResolveOne(r.conv, index)|
  {
    ResolveAllIs(convs, index, r);
    var rows := ResolveOne(r.conv, index);
    forall s | s in ResolveAll(convs, index) && s.Cid() == r.Cid() ensures s in rows {
      ResolveAllIs(convs, index, s);
    }
    forall i | 0 <= i < |rows| ensures rows[i] in ResolveAll(convs, index) {
      assert rows[i] in rows;
      ResolveAllIs(convs, index, rows[i]);
    }
  }

  function HouseholdsOf(rows: seq<Resolved>): seq<Id> {
    seq(|rows|, i requires 0 <= i < |rows| => rows[i].householdId)
  }

  lemma FanOutHouseholds(convs: seq<Conversion>, index: GraphIndex, r: Resolved, h: Id)
    requires ExactResends(convs) && WellFormedIndex(index)
    requires r in ResolveAll(convs, index) && r.candidateCount > 1
    ensures h in HouseholdsOf(ResolveOne(r.conv, index)) <==> h in FanOut(ResolveAll(convs, index), r.Cid())
  {
    hide ResolveAll;
    var all, rows := ResolveAll(convs, index), ResolveOne(r.conv, index);
    var hhs := HouseholdsOf(rows);
    ResolveAllIs(convs, index, r);
    FanOutIs(convs, index, r);
    if h in hhs {
      var i :| 0 <= i < |hhs| && hhs[i] == h;
      assert rows[i] in all && rows[i].candidateCount > 1;
    }
    if h in FanOut(all, r.Cid()) {
      var s :| s in all && s.candidateCount > 1 && s.Cid() == r.Cid() && s.householdId == h;
      var i :| 0 <= i < |rows| && rows[i] == s;
      assert hhs[i] == h;
    }
  }

  lemma FanOutAscends(conv: Conversion, index: GraphIndex)
    requires WellFormedIndex(index)
    ensures Ascending(HouseholdsOf(ResolveOne(conv, index)))
  {
  }

  /** The candidate set the engine records for an ambiguous conversion is the list of
      households it fanned out to. */
  lemma CandidateSetIsFanOut(convs: seq<Conversion>, index: GraphIndex, r: Resolved)
    requires ExactResends(convs) && WellFormedIndex(index)
    requires r in ResolveAll(convs, index) && r.candidateCount > 1
    ensures Ascending(HouseholdsOf(ResolveOne(r.conv, index)))
    ensures r.Cid() in CandidateHouseholds(ResolveAll(convs, index))
    ensures CandidateHouseholds(ResolveAll(convs, index))[r.Cid()] == HouseholdsOf(ResolveOne(r.conv, index))
  {
    hide ResolveAll, ResolveOne, FanOut, HouseholdsOf, Ascending;
    var all, hhs := ResolveAll(convs, index), HouseholdsOf(ResolveOne(r.conv, index));
    FanOutAscends(r.conv, index);
    forall h ensures h in hhs <==> h in FanOut(all, r.Cid()) { FanOutHouseholds(convs, index, r, h); }
    assert r.Cid() in AmbiguousIds(all);
    AscendingUnique(SortedIds(FanOut(all, r.Cid())), hhs);
  }

  /** Resolution never produces two different rows for one conversion and household. */
  lemma ResolvedOncePerHousehold(convs: seq<Conversion>, index: GraphIndex)
    requires ExactResends(convs) && WellFormedIndex(index)
    ensures OnePerHousehold(ResolveAll(convs, index))
  {
    var all := ResolveAll(convs, index);
    forall r, s | r in all && s in all && ResolvedKey(r) == ResolvedKey(s) ensures r == s {
      ResolveAllIs(convs, index, r);
      ResolveAllIs(convs, index, s);
      assert r.conv == s.conv;
      var rows := ResolveOne(r.conv, index);
      var i :| 0 <= i < |rows| && rows[i] == r;
      var j :| 0 <= j < |rows| && rows[j] == s;
    }
  }

  // ---------- conservation ----------

  /** On resolved input no row breaks the candidate-set invariant. */
  lemma NothingRaises(convs: seq<Conversion>, index: GraphIndex)
    requires ExactResends(convs) && WellFormedIndex(index)
    ensures !RunRaises(ResolveAll(convs, index))
  {
    hide OneRow, ResolveAll, ResolveOne, CandidateHouseholds, Ascending;
    var all := ResolveAll(convs, index);
    forall c | c in OneRow(all) ensures !Raises(c, CandidateHouseholds(all)) {
      InOneRow(all, c);
      if c.candidateCount > 1 {
        CandidateSetIsFanOut(convs, index, c);
        FanOutIs(convs, index, c);
        ResolveAllIs(convs, index, c);
        var rows := ResolveOne(c.conv, index);
        var i :| 0 <= i < |rows| && rows[i] == c;
        assert HouseholdsOf(rows)[i] == c.householdId;
      }
    }
  }

  /** Conservation: the hot pass emits exactly one row per resolvable conversion id and
      none for any other, in id order, and every row satisfies the invariant. */
  lemma HotPassConserves(exposures: seq<Exposure>, convs: seq<Conversion>, index: GraphIndex, lateness: Time)
    requires ExactResends(convs) && WellFormedIndex(index)
    ensures var out := EngineOutput(exposures, ResolveAll(convs, index), lateness);
      && (forall i, j :: 0 <= i < j < |out| ==> out[i].Cid() < out[j].Cid())
      && (forall a :: a in out ==> a.res.conv in convs && Resolvable(a.res.conv, index) && CandidateSetMatchesCount(a))
      && (forall conv :: conv in convs && Resolvable(conv, index) ==>
            exists a :: a in out && a.Cid() == conv.conversionId)
  {
    hide EngineCandidate, CandidateHouseholds, OneRow, Tabulate, DistinctCids, CandidateSetMatchesCount,
         ResolveOne;
    var all := ResolveAll(convs, index);
    var row := EngineRow(exposures, all, lateness);
    var out := EngineOutput(exposures, all, lateness);
    EngineRowKeepsConversion(exposures, all, lateness);
    OneRowDistinct(all);
    TabulateSorted(OneRow(all), row);
    TabulateIs(OneRow(all), row);
    forall a | a in out ensures a.res.conv in convs && Resolvable(a.res.conv, index) && CandidateSetMatchesCount(a) {
      InOneRow(all, a.res);
      ResolveAllIs(convs, index, a.res);
      EngineRowIsValid(exposures, convs, index, a.res, lateness);
    }
    forall conv | conv in convs && Resolvable(conv, index)
      ensures exists a :: a in out && a.Cid() == conv.conversionId
    {
      RowForConversion(convs, index, conv);
      var c :| c in OneRow(all) && c.Cid() == conv.conversionId;
      assert row(c) in out;
    }
  }

  lemma RowForConversion(convs: seq<Conversion>, index: GraphIndex, conv: Conversion)
    requires conv in convs && Resolvable(conv, index)
    ensures exists c :: c in OneRow(ResolveAll(convs, index)) && c.Cid() == conv.conversionId
  {
    var all := ResolveAll(convs, index);
    var r := ResolveOne(conv, index)[0];
    assert r in ResolveOne(conv, index);
    ResolveAllIs(convs, index, r);
    var c := Representative(all, r.Cid()).value;
    InOneRow(all, c);
  }

  lemma EngineRowIsValid(exposures: seq<Exposure>, convs: seq<Conversion>, index: GraphIndex, c: Resolved,
      lateness: Time)
    requires ExactResends(convs) && WellFormedIndex(index) && c in OneRow(ResolveAll(convs, index))
    ensures CandidateSetMatchesCount(EngineCandidate(exposures, ResolveAll(convs, index), c, lateness).row)
  {
    hide Stream, ResolveAll, ProbedState, CandidateHouseholds, EngineCandidate, OneRow;
    var all := ResolveAll(convs, index);
    NothingRaises(convs, index);
    assert !Raises(c, CandidateHouseholds(all));
    var p := Position(exposures, all, c, lateness);
  }
}
