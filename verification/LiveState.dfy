/**
 The last-writer-wins merge of live device updates. Times are the parsed timestamps; a missing or
 unreadable one counts as zero.
 */
module LiveState {
  import opened Wrappers

  /** A coordinate that is not a finite number is missing. */
  datatype Position = Position(latitude: Option<real>, longitude: Option<real>, timestamp: int)
  datatype Query = Query(completedAt: int, status: nat)
  datatype Reconciliation = Reconciliation(startedAt: int, completedAt: Option<int>, status: nat)

  datatype Device = Device(
    id: nat,
    latestPosition: Option<Position>,
    lastLocationAt: int,
    lastReceivedAt: int,
    lastQuery: Option<Query>,
    reconciliation: Option<Reconciliation>,
    trackingEnabled: bool,
    trackingIntervalSeconds: nat,
    lastErrorCode: Option<nat>
  )

  /** A device of an update: the fields it mentions, which override the ones already known. */
  datatype Patch = Patch(
    id: nat,
    latestPosition: Option<Option<Position>>,
    lastLocationAt: Option<int>,
    lastReceivedAt: Option<int>,
    lastQuery: Option<Option<Query>>,
    reconciliation: Option<Option<Reconciliation>>,
    trackingEnabled: Option<bool>,
    trackingIntervalSeconds: Option<nat>,
    lastErrorCode: Option<Option<nat>>
  )

  /** What a change carries about one device. */
  datatype Details = Details(
    enabled: Option<bool>,
    intervalSeconds: Option<int>,
    code: Option<nat>,
    query: Option<Query>,
    reconciliation: Option<Reconciliation>,
    location: Option<Position>,
    at: int
  )

  datatype Update =
    | Full(instanceId: nat, snapshot: Snapshot)
    | Change(instanceId: nat, connected: Option<bool>, devices: Option<seq<Patch>>, deviceId: Option<nat>,
      details: Details)

  /** `counts` are the numbers of devices and of tracking devices as displayed. */
  datatype Snapshot = Snapshot(instanceId: nat, connected: bool, devices: seq<Device>, counts: (nat, nat))

  function PositionTime(p: Option<Position>): int {
    if p.Some? then p.value.timestamp else 0
  }

  function QueryTime(q: Option<Query>): int {
    if q.Some? then q.value.completedAt else 0
  }

  function ReconciliationTime(r: Option<Reconciliation>): int {
    if r.None? then 0 else if r.value.completedAt.Some? then r.value.completedAt.value else r.value.startedAt
  }

  function Find(devices: seq<Device>, id: nat): (i: Option<nat>)
    ensures i.Some? ==> i.value < |devices| && devices[i.value].id == id
    ensures i.Some? ==> forall j :: 0 <= j < i.value ==> devices[j].id != id
    ensures i.None? ==> forall j :: 0 <= j < |devices| ==> devices[j].id != id
  {
    if devices == [] then None
    else if devices[0].id == id then Some(0)
    else
      var rest := Find(devices[1..], id);
      if rest.Some? then Some(rest.value + 1) else None
  }

  function Known(devices: seq<Device>, id: nat): Option<Device> {
    var i := Find(devices, id);
    if i.Some? then Some(devices[i.value]) else None
  }

  function RetainNewer(previous: Option<Device>, next: Device): Device {
    if previous.None? then next
    else
      var p := previous.value;
      var placed :=
        if PositionTime(p.latestPosition) > PositionTime(next.latestPosition)
        then next.(latestPosition := p.latestPosition, lastLocationAt := p.lastLocationAt,
          lastReceivedAt := p.lastReceivedAt)
        else next;
      if QueryTime(p.lastQuery) > QueryTime(next.lastQuery) then placed.(lastQuery := p.lastQuery) else placed
  }

  function Blank(id: nat): Device {
    Device(id, None, 0, 0, None, None, false, 0, None)
  }

  function Or<T>(a: Option<T>, b: T): T {
    if a.Some? then a.value else b
  }

  /** The known device overlaid with what the update mentions. */
  function Patched(known: Option<Device>, p: Patch): Device {
    var d := Or(known, Blank(p.id));
    Device(p.id, Or(p.latestPosition, d.latestPosition), Or(p.lastLocationAt, d.lastLocationAt),
           Or(p.lastReceivedAt, d.lastReceivedAt), Or(p.lastQuery, d.lastQuery), Or(p.reconciliation, d.reconciliation),
           Or(p.trackingEnabled, d.trackingEnabled), Or(p.trackingIntervalSeconds, d.trackingIntervalSeconds),
           Or(p.lastErrorCode, d.lastErrorCode))
  }

  function MergedAll(known: seq<Device>, next: seq<Device>): (r: seq<Device>)
    ensures |r| == |next| && forall i :: 0 <= i < |next| ==> r[i] == RetainNewer(Known(known, next[i].id), next[i])
  {
    if next == [] then []
    else MergedAll(known, next[..|next| - 1]) + [RetainNewer(Known(known, next[|next| - 1].id), next[|next| - 1])]
  }

  function PatchedAll(known: seq<Device>, patches: seq<Patch>): (r: seq<Device>)
    ensures |r| == |patches|
    ensures forall i :: 0 <= i < |patches| ==>
      r[i] == RetainNewer(Known(known, patches[i].id), Patched(Known(known, patches[i].id), patches[i]))
  {
    if patches == [] then []
    else
      var p := patches[|patches| - 1];
      PatchedAll(known, patches[..|patches| - 1]) + [RetainNewer(Known(known, p.id), Patched(Known(known, p.id), p))]
  }

  predicate ValidPosition(p: Position) {
    && p.latitude.Some? && -90.0 <= p.latitude.value <= 90.0
    && p.longitude.Some? && -180.0 <= p.longitude.value <= 180.0
    && p.timestamp > 0
  }

  function Located(d: Device, p: Position, at: int): Device {
    if ValidPosition(p) && (d.latestPosition.None? || p.timestamp >= PositionTime(d.latestPosition)) then
      d.(latestPosition := Some(p), lastLocationAt := p.timestamp, lastErrorCode := None,
         lastReceivedAt := if at >= d.lastReceivedAt then at else d.lastReceivedAt)
    else d
  }

  function Detailed(d: Device, x: Details): Device {
    var settled := d.(
      trackingEnabled := Or(x.enabled, d.trackingEnabled),
      trackingIntervalSeconds := if x.intervalSeconds.Some? && x.intervalSeconds.value >= 0 then x.intervalSeconds.value
        else d.trackingIntervalSeconds,
      lastErrorCode := if x.code.Some? then x.code else d.lastErrorCode,
      lastQuery := if x.query.Some? && QueryTime(x.query) >= QueryTime(d.lastQuery) then x.query else d.lastQuery,
      reconciliation := if x.reconciliation.Some?
        && ReconciliationTime(x.reconciliation) >= ReconciliationTime(d.reconciliation)
                        then x.reconciliation else d.reconciliation);
    if x.location.Some? then Located(settled, x.location.value, x.at) else settled
  }

  function Tracking(devices: seq<Device>): nat {
    if devices == [] then 0
    else Tracking(devices[..|devices| - 1]) + if devices[|devices| - 1].trackingEnabled then 1 else 0
  }

  function ApplyChange(s: Snapshot, u: Update): Snapshot
    requires u.Change?
  {
    var devices := if u.devices.Some? then PatchedAll(s.devices, u.devices.value) else s.devices;
    var i := if u.deviceId.Some? then Find(devices, u.deviceId.value) else None;
    var detailed := if i.Some? then devices[i.value := Detailed(devices[i.value], u.details)] else devices;
    Snapshot(s.instanceId, Or(u.connected, s.connected), detailed, (|detailed|, Tracking(detailed)))
  }

  /** The whole merge: an update for another instance, or a change before any snapshot, is ignored. */
  function Applied(s: Option<Snapshot>, u: Update, instanceId: nat): Option<Snapshot> {
    if u.instanceId != instanceId then s
    else if u.Full? then
      var known := if s.Some? && s.value.instanceId == instanceId then s.value.devices else [];
      Some(Snapshot(u.instanceId, u.snapshot.connected, MergedAll(known, u.snapshot.devices), u.snapshot.counts))
    else if s.None? then None
    else Some(ApplyChange(s.value, u))
  }

  // ---------------------------------------------------------------- times never go back

  function Of(s: Option<Snapshot>, id: nat): Option<Device> {
    if s.Some? then Known(s.value.devices, id) else None
  }

  predicate NotOlder(before: Device, after: Device) {
    PositionTime(before.latestPosition) <= PositionTime(after.latestPosition)
      && QueryTime(before.lastQuery) <= QueryTime(after.lastQuery)
  }

  predicate OwnedBy(s: Option<Snapshot>, instanceId: nat) {
    s.Some? ==> s.value.instanceId == instanceId
  }

  lemma {:induction false} RetainedIsNotOlder(previous: Device, next: Device)
    ensures NotOlder(previous, RetainNewer(Some(previous), next))
    ensures RetainNewer(Some(previous), next).id == next.id
  {
  }

  lemma {:induction false} DetailedIsNotOlder(d: Device, x: Details)
    ensures NotOlder(d, Detailed(d, x)) && Detailed(d, x).id == d.id
  {
  }

  lemma {:induction false} FirstWithId(devices: seq<Device>, i: nat, id: nat)
    requires i < |devices| && devices[i].id == id && forall j :: 0 <= j < i ==> devices[j].id != id
    ensures Find(devices, id) == Some(i)
  {
  }

  lemma {:induction false} PatchedIsNotOlder(known: seq<Device>, patches: seq<Patch>, id: nat)
    requires Known(known, id).Some? && Known(PatchedAll(known, patches), id).Some?
    ensures NotOlder(Known(known, id).value, Known(PatchedAll(known, patches), id).value)
  {
    var merged := PatchedAll(known, patches);
    var i := Find(merged, id).value;
    var found := Known(known, patches[i].id);
    if found.Some? {
      RetainedIsNotOlder(found.value, Patched(found, patches[i]));
    }
  }

  lemma {:induction false} MergedIsNotOlder(known: seq<Device>, next: seq<Device>, id: nat)
    requires Known(known, id).Some? && Known(MergedAll(known, next), id).Some?
    ensures NotOlder(Known(known, id).value, Known(MergedAll(known, next), id).value)
  {
    var merged := MergedAll(known, next);
    var i := Find(merged, id).value;
    var found := Known(known, next[i].id);
    if found.Some? {
      RetainedIsNotOlder(found.value, next[i]);
    }
  }

  lemma {:induction false} ChangedIsNotOlder(devices: seq<Device>, i: Option<nat>, x: Details, id: nat)
    requires (i.Some? ==> i.value < |devices|) && Known(devices, id).Some?
    ensures var after := if i.Some? then devices[i.value := Detailed(devices[i.value], x)] else devices;
      Known(after, id).Some? && NotOlder(Known(devices, id).value, Known(after, id).value)
  {
    hide Detailed, NotOlder;
    var k := Find(devices, id).value;
    DetailedIsNotOlder(devices[k], x);
    if i.Some? {
      DetailedIsNotOlder(devices[i.value], x);
      FirstWithId(devices[i.value := Detailed(devices[i.value], x)], k, id);
    }
    NotOlderItself(devices[k]);
  }

  lemma {:induction false} NotOlderItself(d: Device)
    ensures NotOlder(d, d)
  {
  }

  lemma {:induction false} NotOlderChains(a: Device, b: Device, c: Device)
    requires NotOlder(a, b) && NotOlder(b, c)
    ensures NotOlder(a, c)
  {
  }

  /** One update of any kind: a device present before and after is not set back. */
  lemma {:induction false} UpdateIsNotOlder(s: Option<Snapshot>, u: Update, instanceId: nat, id: nat)
    requires OwnedBy(s, instanceId) && Of(s, id).Some? && Of(Applied(s, u, instanceId), id).Some?
    ensures OwnedBy(Applied(s, u, instanceId), instanceId)
    ensures NotOlder(Of(s, id).value, Of(Applied(s, u, instanceId), id).value)
  {
    hide RetainNewer, Patched, Detailed, NotOlder, Find;
    if u.instanceId != instanceId {
      NotOlderItself(Of(s, id).value);
    } else if u.Full? {
      MergedIsNotOlder(s.value.devices, u.snapshot.devices, id);
    } else {
      var known := s.value.devices;
      var devices := if u.devices.Some? then PatchedAll(known, u.devices.value) else known;
      var i := if u.deviceId.Some? then Find(devices, u.deviceId.value) else None;
      DetailsKeepPresence(devices, i, u.details, id);
      ChangedIsNotOlder(devices, i, u.details, id);
      if u.devices.Some? {
        PatchedIsNotOlder(known, u.devices.value, id);
      } else {
        NotOlderItself(Known(known, id).value);
      }
      NotOlderChains(Known(known, id).value, Known(devices, id).value, Of(Applied(s, u, instanceId), id).value);
    }
  }

  lemma {:induction false} DetailsKeepPresence(devices: seq<Device>, i: Option<nat>, x: Details, id: nat)
    requires i.Some? ==> i.value < |devices|
    requires Known(if i.Some? then devices[i.value := Detailed(devices[i.value], x)] else devices, id).Some?
    ensures Known(devices, id).Some?
  {
    if i.Some? {
      DetailedIsNotOlder(devices[i.value], x);
      hide Detailed;
      var after := devices[i.value := Detailed(devices[i.value], x)];
      var k := Find(after, id).value;
      assert devices[k].id == id;
    }
  }

  function AppliedAll(s: Option<Snapshot>, updates: seq<Update>, instanceId: nat): Option<Snapshot>
    decreases |updates|
  {
    if updates == [] then s else AppliedAll(Applied(s, updates[0], instanceId), updates[1..], instanceId)
  }

  /** The device is in the snapshot before and after every update. */
  predicate StaysPresent(s: Option<Snapshot>, updates: seq<Update>, instanceId: nat, id: nat)
    decreases |updates|
  {
    Of(s, id).Some? && (updates == [] || StaysPresent(Applied(s, updates[0], instanceId), updates[1..], instanceId, id))
  }

  /** Across any mix of snapshots and changes, a device that stays present is never set back. */
  lemma {:induction false} TimesNeverGoBack(s: Option<Snapshot>, updates: seq<Update>, instanceId: nat, id: nat)
    requires OwnedBy(s, instanceId) && StaysPresent(s, updates, instanceId, id)
    ensures Of(AppliedAll(s, updates, instanceId), id).Some?
    ensures NotOlder(Of(s, id).value, Of(AppliedAll(s, updates, instanceId), id).value)
    decreases |updates|
  {
    hide Applied, NotOlder, Of;
    if updates == [] {
      NotOlderItself(Of(s, id).value);
    } else {
      var next := Applied(s, updates[0], instanceId);
      assert Of(next, id).Some?;
      UpdateIsNotOlder(s, updates[0], instanceId, id);
      TimesNeverGoBack(next, updates[1..], instanceId, id);
      NotOlderChains(Of(s, id).value, Of(next, id).value, Of(AppliedAll(next, updates[1..], instanceId), id).value);
    }
  }

  // ---------------------------------------------------------------- reconciliations can go back

  function ListedReconciliation(devices: seq<Device>, id: nat): Option<Reconciliation> {
    var i := Find(devices, id);
    if i.Some? then devices[i.value].reconciliation else None
  }

  /** The reconciliation that the first listed record of the device carries, if it mentions one. */
  function PatchedReconciliation(patches: seq<Patch>, id: nat): Option<Option<Reconciliation>> {
    if patches == [] then None
    else if patches[0].id == id then patches[0].reconciliation
    else PatchedReconciliation(patches[1..], id)
  }

  /** The update lists the device with a reconciliation that is older than `time`, or with none. */
  predicate ListsOlder(u: Update, id: nat, time: int) {
    match u
    case Full(_, snapshot) => ReconciliationTime(ListedReconciliation(snapshot.devices, id)) < time
    case Change(_, _, devices, _, _) =>
      var listed := if devices.Some? then PatchedReconciliation(devices.value, id) else None;
      listed.Some? && ReconciliationTime(listed.value) < time
  }

  /** The details of the same update bring a reconciliation of the device that is not older than `time`. */
  predicate BringsNewer(u: Update, id: nat, time: int) {
    && u.Change? && u.deviceId == Some(id)
    && u.details.reconciliation.Some? && ReconciliationTime(u.details.reconciliation) >= time
  }

  /**
   Exactly when an update sets the reconciliation of a device back: when it belongs to the instance and
   lists the device with an older reconciliation, unless its details bring a newer one again.
   */
  lemma {:induction false} ReconciliationGoesBackIff(s: Option<Snapshot>, u: Update, instanceId: nat, id: nat)
    requires Of(s, id).Some? && Of(Applied(s, u, instanceId), id).Some?
    ensures var before := ReconciliationTime(Of(s, id).value.reconciliation);
      ReconciliationTime(Of(Applied(s, u, instanceId), id).value.reconciliation) < before
      <==> u.instanceId == instanceId && ListsOlder(u, id, before) && !BringsNewer(u, id, before)
  {
    hide Find, MergedAll, PatchedAll, ReconciliationTime, PatchedReconciliation, Tracking;
    if u.instanceId == instanceId {
      var known := s.value.devices;
      if u.Full? {
        MergedReconciliation(if s.value.instanceId == instanceId then known else [], u.snapshot.devices, id);
      } else {
        ChangedReconciliation(s.value, u, id);
      }
    }
  }

  lemma {:induction false} ChangedReconciliation(s: Snapshot, u: Update, id: nat)
    requires u.Change? && Known(s.devices, id).Some? && Known(ApplyChange(s, u).devices, id).Some?
    ensures
      var before := Known(s.devices, id).value.reconciliation;
      var listed := if u.devices.Some? then Or(PatchedReconciliation(u.devices.value, id), before) else before;
      Known(ApplyChange(s, u).devices, id).value.reconciliation ==
        if u.deviceId == Some(id) && u.details.reconciliation.Some?
           && ReconciliationTime(u.details.reconciliation) >= ReconciliationTime(listed)
        then u.details.reconciliation else listed
  {
    hide Find, MergedAll, PatchedAll, ReconciliationTime, PatchedReconciliation, Tracking, Detailed;
    var devices := if u.devices.Some? then PatchedAll(s.devices, u.devices.value) else s.devices;
    var i := if u.deviceId.Some? then Find(devices, u.deviceId.value) else None;
    DetailsKeepPresence(devices, i, u.details, id);
    if u.devices.Some? {
      OverlaidReconciliation(s.devices, u.devices.value, id);
    }
    DetailsReachOneDevice(devices, u.deviceId, u.details, id);
  }

  lemma {:induction false} MergedReconciliation(known: seq<Device>, next: seq<Device>, id: nat)
    requires Known(MergedAll(known, next), id).Some?
    ensures Known(MergedAll(known, next), id).value.reconciliation == ListedReconciliation(next, id)
  {
    var merged := MergedAll(known, next);
    var i := Find(merged, id).value;
    FirstWithId(next, i, id);
  }

  lemma {:induction false} OverlaidReconciliation(known: seq<Device>, patches: seq<Patch>, id: nat)
    requires Known(known, id).Some? && Known(PatchedAll(known, patches), id).Some?
    ensures Known(PatchedAll(known, patches), id).value.reconciliation
         == Or(PatchedReconciliation(patches, id), Known(known, id).value.reconciliation)
  {
    hide Find, RetainNewer, Patched, PatchedAll, PatchedReconciliation;
    var merged := PatchedAll(known, patches);
    var i := Find(merged, id).value;
    forall j | 0 <= j < |patches|
      ensures merged[j].id == patches[j].id
      ensures merged[j].reconciliation
        == Or(patches[j].reconciliation, Or(Known(known, patches[j].id), Blank(patches[j].id)).reconciliation)
    {
      RetainedReconciliation(Known(known, patches[j].id), patches[j]);
    }
    PatchedFirst(patches, i, id);
  }

  lemma {:induction false} RetainedReconciliation(known: Option<Device>, p: Patch)
    ensures var d := RetainNewer(known, Patched(known, p));
      d.id == p.id && d.reconciliation == Or(p.reconciliation, Or(known, Blank(p.id)).reconciliation)
  {
  }

  lemma {:induction false} PatchedFirst(patches: seq<Patch>, i: nat, id: nat)
    requires i < |patches| && patches[i].id == id && forall j :: 0 <= j < i ==> patches[j].id != id
    ensures PatchedReconciliation(patches, id) == patches[i].reconciliation
    decreases i
  {
    if i > 0 {
      PatchedFirst(patches[1..], i - 1, id);
    }
  }

  lemma {:induction false} DetailsReachOneDevice(devices: seq<Device>, deviceId: Option<nat>, x: Details, id: nat)
    requires Known(devices, id).Some?
    ensures var i := if deviceId.Some? then Find(devices, deviceId.value) else None;
      var after := if i.Some? then devices[i.value := Detailed(devices[i.value], x)] else devices;
      Known(after, id).Some? && Known(after, id).value ==
        if deviceId == Some(id) then Detailed(Known(devices, id).value, x) else Known(devices, id).value
    ensures var d := Known(devices, id).value;
      Detailed(d, x).reconciliation ==
        if x.reconciliation.Some? && ReconciliationTime(x.reconciliation) >= ReconciliationTime(d.reconciliation)
        then x.reconciliation else d.reconciliation
  {
    var k := Find(devices, id).value;
    var i := if deviceId.Some? then Find(devices, deviceId.value) else None;
    if i.Some? {
      DetailedIsNotOlder(devices[i.value], x);
      FirstWithId(devices[i.value := Detailed(devices[i.value], x)], k, id);
    }
  }

  predicate SetsReconciliationBack(s: Option<Snapshot>, u: Update, instanceId: nat, id: nat) {
    && Of(s, id).Some? && Of(Applied(s, u, instanceId), id).Some?
    && ReconciliationTime(Of(Applied(s, u, instanceId), id).value.reconciliation)
       < ReconciliationTime(Of(s, id).value.reconciliation)
  }

  const RECONCILED := Blank(5).(reconciliation := Some(Reconciliation(10, Some(20), 1)))
  const CURRENT := Some(Snapshot(1, true, [RECONCILED], (1, 0)))

  /** Both kinds of list can set a reconciliation back: a delayed snapshot and a delayed change. */
  lemma {:induction false} ReconciliationCanGoBack()
    ensures exists u: Update :: u.Full? && SetsReconciliationBack(CURRENT, u, 1, 5)
    ensures exists u: Update :: u.Change? && SetsReconciliationBack(CURRENT, u, 1, 5)
  {
    FirstWithId([RECONCILED], 0, 5);
    SnapshotSetsBack();
    ChangeSetsBack();
  }

  lemma {:induction false} SnapshotSetsBack()
    ensures exists u: Update :: u.Full? && SetsReconciliationBack(CURRENT, u, 1, 5)
  {
    var u := Full(1, Snapshot(1, true, [Blank(5)], (1, 0)));
    FirstWithId([RECONCILED], 0, 5);
    FirstWithId([Blank(5)], 0, 5);
    FirstWithId(MergedAll([RECONCILED], [Blank(5)]), 0, 5);
    ReconciliationGoesBackIff(CURRENT, u, 1, 5);
    assert SetsReconciliationBack(CURRENT, u, 1, 5);
  }

  lemma {:induction false} ChangeSetsBack()
    ensures exists u: Update :: u.Change? && SetsReconciliationBack(CURRENT, u, 1, 5)
  {
    var patch := Patch(5, None, None, None, None, Some(Some(Reconciliation(3, None, 1))), None, None, None);
    var u := Change(1, None, Some([patch]), None, Details(None, None, None, None, None, None, 0));
    FirstWithId([RECONCILED], 0, 5);
    FirstWithId(PatchedAll([RECONCILED], [patch]), 0, 5);
    ReconciliationGoesBackIff(CURRENT, u, 1, 5);
    assert SetsReconciliationBack(CURRENT, u, 1, 5);
  }

  // ---------------------------------------------------------------- the order of location events

  function Placed(known: Option<Position>, p: Position): Option<Position> {
    if ValidPosition(p) && (known.None? || p.timestamp >= PositionTime(known)) then Some(p) else known
  }

  function PlacedAll(known: Option<Position>, reports: seq<Position>): Option<Position>
    decreases |reports|
  {
    if reports == [] then known else PlacedAll(Placed(known, reports[0]), reports[1..])
  }

  predicate Counts(known: Option<Position>, p: Position) {
    ValidPosition(p) && (known.Some? ==> p.timestamp >= PositionTime(known))
  }

  /** The newest valid report that is not older than the known position wins; if none is, the position stays. */
  ghost predicate IsNewest(known: Option<Position>, reports: seq<Position>, p: Option<Position>) {
    if exists r :: r in reports && Counts(known, r) then
      && p.Some? && p.value in reports && Counts(known, p.value)
      && (forall q :: q in reports && Counts(known, q) ==> q.timestamp <= p.value.timestamp)
    else p == known
  }

  lemma {:induction false} PlacedIsNewest(known: Option<Position>, reports: seq<Position>)
    ensures IsNewest(known, reports, PlacedAll(known, reports))
    decreases |reports|
  {
    hide ValidPosition;
    if reports != [] {
      var first, rest := reports[0], reports[1..];
      PlacedIsNewest(Placed(known, first), rest);
      assert forall r :: r in reports <==> r == first || r in rest;
    }
  }

  /** The update brings a location of the device and nothing that replaces the device. */
  predicate Locates(u: Update, instanceId: nat, id: nat) {
    u.Change? && u.instanceId == instanceId && u.deviceId == Some(id) && u.details.location.Some?
  }

  /** The position of the device after one update. */
  function Locating(known: Option<Position>, u: Update, instanceId: nat, id: nat): Option<Position> {
    if Locates(u, instanceId, id) then Placed(known, u.details.location.value) else known
  }

  /** The locations that the updates bring for the device, in order. */
  function LocationsOf(updates: seq<Update>, instanceId: nat, id: nat): seq<Position> {
    if updates == [] then []
    else
      (if Locates(updates[0], instanceId, id) then [updates[0].details.location.value] else [])
      + LocationsOf(updates[1..], instanceId, id)
  }

  /** No list of devices: each update is about one device, or about none. */
  predicate Single(u: Update) {
    u.Change? && u.devices.None?
  }

  /** No two updates bring different valid locations of the device with the same time. */
  ghost predicate DistinctTimes(updates: seq<Update>, instanceId: nat, id: nat) {
    forall u, v ::
      u in updates && v in updates && Locates(u, instanceId, id) && Locates(v, instanceId, id)
      ==> DistinctPositions(u.details.location.value, v.details.location.value)
  }

  predicate DistinctPositions(p: Position, q: Position) {
    ValidPosition(p) && ValidPosition(q) && p.timestamp == q.timestamp ==> p == q
  }

  lemma {:induction false} LocationOrigin(updates: seq<Update>, instanceId: nat, id: nat, p: Position)
    ensures p in LocationsOf(updates, instanceId, id)
      <==> exists u :: u in updates && Locates(u, instanceId, id) && u.details.location.value == p
  {
    if updates != [] {
      LocationOrigin(updates[1..], instanceId, id, p);
      assert forall u :: u in updates <==> u == updates[0] || u in updates[1..];
    }
  }

  /** One update of one device: another device and other details leave the position alone. */
  lemma {:induction false} SingleUpdatePlaces(s: Option<Snapshot>, u: Update, instanceId: nat, id: nat)
    requires Single(u) && Of(s, id).Some?
    ensures Of(Applied(s, u, instanceId), id).Some?
    ensures Of(Applied(s, u, instanceId), id).value.latestPosition
         == Locating(Of(s, id).value.latestPosition, u, instanceId, id)
  {
    hide Tracking, Find;
    if u.instanceId == instanceId {
      DetailsReachOneDevice(s.value.devices, u.deviceId, u.details, id);
    }
  }

  lemma {:induction false} UpdatesPlaceAll(s: Option<Snapshot>, updates: seq<Update>, instanceId: nat, id: nat)
    requires (forall u :: u in updates ==> Single(u)) && Of(s, id).Some?
    ensures Of(AppliedAll(s, updates, instanceId), id).Some?
    ensures Of(AppliedAll(s, updates, instanceId), id).value.latestPosition
         == PlacedAll(Of(s, id).value.latestPosition, LocationsOf(updates, instanceId, id))
    decreases |updates|
  {
    hide Applied, Of, Placed;
    if updates != [] {
      assert updates[0] in updates && forall u :: u in updates[1..] ==> u in updates;
      SingleUpdatePlaces(s, updates[0], instanceId, id);
      UpdatesPlaceAll(Applied(s, updates[0], instanceId), updates[1..], instanceId, id);
      FirstPlaced(Of(s, id).value.latestPosition, updates, instanceId, id);
    }
  }

  lemma {:induction false} FirstPlaced(known: Option<Position>, updates: seq<Update>, instanceId: nat, id: nat)
    requires updates != []
    ensures PlacedAll(known, LocationsOf(updates, instanceId, id))
         == PlacedAll(Locating(known, updates[0], instanceId, id), LocationsOf(updates[1..], instanceId, id))
  {
    hide Placed;
    var all, rest := LocationsOf(updates, instanceId, id), LocationsOf(updates[1..], instanceId, id);
    if Locates(updates[0], instanceId, id) {
      assert all[1..] == rest;
    } else {
      assert all == rest;
    }
  }

  /**
   Any order of the same updates, each of one device, ends in the same position of each device that
   never gets two locations with one time.
   */
  lemma {:induction false} OrderDoesNotMatter(s: Option<Snapshot>, a: seq<Update>, b: seq<Update>, instanceId: nat,
      id: nat)
    requires multiset(a) == multiset(b) && (forall u :: u in a ==> Single(u)) && DistinctTimes(a, instanceId, id)
    requires Of(s, id).Some?
    ensures Of(AppliedAll(s, a, instanceId), id).Some? && Of(AppliedAll(s, b, instanceId), id).Some?
    ensures Of(AppliedAll(s, a, instanceId), id).value.latestPosition
      == Of(AppliedAll(s, b, instanceId), id).value.latestPosition
  {
    hide Applied, Of, AppliedAll, Counts, ValidPosition, Single, Locates, LocationsOf, PlacedAll, IsNewest;
    forall u
      ensures u in a <==> u in b
    {
      assert u in a <==> u in multiset(a);
      assert u in b <==> u in multiset(b);
    }
    UpdatesPlaceAll(s, a, instanceId, id);
    UpdatesPlaceAll(s, b, instanceId, id);
    var p, q := LocationsOf(a, instanceId, id), LocationsOf(b, instanceId, id);
    SameLocations(a, b, instanceId, id);
    var known := Of(s, id).value.latestPosition;
    PlacedIsNewest(known, p);
    PlacedIsNewest(known, q);
    NewestIsUnique(known, p, q, PlacedAll(known, p), PlacedAll(known, q));
  }

  lemma {:induction false} SameLocations(a: seq<Update>, b: seq<Update>, instanceId: nat, id: nat)
    requires (forall u :: u in a <==> u in b) && DistinctTimes(a, instanceId, id)
    ensures forall p :: p in LocationsOf(a, instanceId, id) <==> p in LocationsOf(b, instanceId, id)
    ensures forall p, q :: p in LocationsOf(a, instanceId, id) && q in LocationsOf(a, instanceId, id) ==>
      DistinctPositions(p, q)
  {
    hide LocationsOf, Locates, DistinctPositions;
    forall p
      ensures p in LocationsOf(a, instanceId, id) <==> p in LocationsOf(b, instanceId, id)
    {
      LocationOrigin(a, instanceId, id, p);
      LocationOrigin(b, instanceId, id, p);
    }
    forall p, q | p in LocationsOf(a, instanceId, id) && q in LocationsOf(a, instanceId, id)
      ensures DistinctPositions(p, q)
    {
      LocationOrigin(a, instanceId, id, p);
      LocationOrigin(a, instanceId, id, q);
    }
  }

  lemma {:induction false} NewestIsUnique(known: Option<Position>, a: seq<Position>, b: seq<Position>,
    p: Option<Position>, q: Option<Position>)
    requires (forall r :: r in a <==> r in b) && (forall r, t :: r in a && t in a ==> DistinctPositions(r, t))
    requires IsNewest(known, a, p) && IsNewest(known, b, q)
    ensures p == q
  {
    if r :| r in a && Counts(known, r) {
      assert r in b;
      assert p.value in a && q.value in a && DistinctPositions(p.value, q.value);
    }
  }

  // ---------------------------------------------------------------- the object

  class LiveSnapshot {
    var instanceId: nat
    var connected: bool
    var devices: seq<Device>
    var counts: (nat, nat)

    ghost function View(): Snapshot
      reads this
    {
      Snapshot(instanceId, connected, devices, counts)
    }

    constructor (s: Snapshot)
      ensures View() == s
    {
      instanceId, connected, devices, counts := s.instanceId, s.connected, s.devices, s.counts;
    }

    method UpdateDevices(patches: seq<Patch>)
      modifies this`devices
      ensures devices == PatchedAll(old(devices), patches)
    {
      var next := [];
      for i := 0 to |patches|
        invariant next == PatchedAll(devices, patches[..i])
      {
        assert patches[..i + 1][..i] == patches[..i];
        var found := Known(devices, patches[i].id);
        next := next + [RetainNewer(found, Patched(found, patches[i]))];
      }
      assert patches[..|patches|] == patches;
      devices := next;
    }

    method Recount()
      modifies this`counts
      ensures counts == (|devices|, Tracking(devices))
    {
      var tracking := 0;
      for i := 0 to |devices|
        invariant tracking == Tracking(devices[..i])
      {
        assert devices[..i + 1][..i] == devices[..i];
        if devices[i].trackingEnabled {
          tracking := tracking + 1;
        }
      }
      assert devices[..|devices|] == devices;
      counts := (|devices|, tracking);
    }

    /** A change updates the snapshot in place. */
    method Apply(u: Update, instance: nat)
      requires u.Change?
      modifies this
      ensures Some(View()) == Applied(Some(old(View())), u, instance)
      ensures u.instanceId == instance ==> counts == (|devices|, Tracking(devices))
    {
      hide PatchedAll, Detailed, Tracking, Find;
      if u.instanceId != instance {
        return;
      }
      if u.connected.Some? {
        connected := u.connected.value;
      }
      if u.devices.Some? {
        UpdateDevices(u.devices.value);
      }
      if u.deviceId.Some? {
        var i := Find(devices, u.deviceId.value);
        if i.Some? {
          devices := devices[i.value := Detailed(devices[i.value], u.details)];
        }
      }
      Recount();
    }
  }

  /** A full snapshot makes a new object; whatever is newer in the current one is retained. */
  method Replace(current: LiveSnapshot?, u: Update, instance: nat) returns (next: LiveSnapshot?)
    requires u.Full?
    ensures u.instanceId != instance ==> next == current
    ensures u.instanceId == instance ==>
      next != null && Some(next.View()) == Applied(if current == null then None else Some(current.View()), u, instance)
  {
    if u.instanceId != instance {
      return current;
    }
    var known := if current != null && current.instanceId == instance then current.devices else [];
    var merged := [];
    for i := 0 to |u.snapshot.devices|
      invariant merged == MergedAll(known, u.snapshot.devices[..i])
    {
      assert u.snapshot.devices[..i + 1][..i] == u.snapshot.devices[..i];
      merged := merged + [RetainNewer(Known(known, u.snapshot.devices[i].id), u.snapshot.devices[i])];
    }
    assert u.snapshot.devices[..|u.snapshot.devices|] == u.snapshot.devices;
    next := new LiveSnapshot(Snapshot(u.instanceId, u.snapshot.connected, merged, u.snapshot.counts));
  }
}
