/**
 Offline devices and their alerts: heartbeats, flushes, the cleaner's rounds and the alert scans, each a step
 on the device table, the event table and the liveness registry. The clock does not go back.
 */
module OfflineAlerts {
  import opened Liveness
  import opened Sequences
  import opened Text

  const SCAN_LIMIT := 500
  const TOUCH_MIN_INTERVAL := 15_000

  /** A `device_offline` event. */
  datatype Event = Event(guid: string, createTime: int, deleted: bool)

  datatype World = World(clock: int, dirty: Stamps, devices: Devices, events: seq<Event>)

  /** `alerted` are the devices of a scan whose event is written: the query returns at most 500 rows, in no
      order, and an insertion may fail. */
  datatype Change =
    | Heartbeat(guid: string, now: int, persist: bool)
    | TouchOnline(guid: string, now: int)
    | Register(guid: string, now: int)
    | TunnelTouch(guid: string, now: int)
    | FlushOk(now: int)
    | FlushFailed(now: int)
    | MarkStale(now: int, timeout: int)
    | MarkAllOffline(now: int)
    | Scan(now: int, delay: int, alerted: set<string>)
    | SetStatus(guid: string, status: int, now: int)
    | AddDevice(guid: string, device: Device, now: int)
    | RemoveDevice(guid: string, now: int)
    | DeleteEvent(index: nat, now: int)

  /** How many undeleted offline events the device has from `since` on. */
  function Alerts(events: seq<Event>, guid: string, since: int): nat {
    if events == [] then 0
    else
      var e := events[|events| - 1];
      Alerts(events[..|events| - 1], guid, since)
      + if e.guid == guid && !e.deleted && e.createTime >= since then 1 else 0
  }

  /** The device query of RecordStaleOfflineEvents. */
  predicate Found(w: World, guid: string, now: int, delay: int) {
    && guid in w.devices && w.devices[guid].status == STATUS_OFFLINE
    && (w.devices[guid].lastSeenTime == 0 || w.devices[guid].lastSeenTime < now - delay)
    && Alerts(w.events, guid, w.devices[guid].lastSeenTime) == 0
  }

  /** With the checks that follow it, of the guid and of the registry. */
  predicate Due(w: World, guid: string, now: int, delay: int) {
    Found(w, guid, now, delay) && !Blank(guid) && StampOf(w.dirty, guid) <= now - delay
  }

  predicate Blank(guid: string) {
    TrimSpace(guid) == ""
  }

  /** The WHERE clause of TouchOnline. */
  predicate TouchWrites(devices: Devices, guid: string, now: int) {
    guid in devices && devices[guid].status != STATUS_DISABLED
    && (devices[guid].status != STATUS_ONLINE || devices[guid].lastSeenTime == 0
        || devices[guid].lastSeenTime < now - TOUCH_MIN_INTERVAL)
  }

  /** The WHERE clause of MarkStaleOnlineDevicesOffline. */
  predicate Stale(d: Device, now: int, timeout: int) {
    d.status == STATUS_ONLINE && (d.lastSeenTime == 0 || d.lastSeenTime < now - timeout)
  }

  predicate Possible(w: World, c: Change) {
    c.now > 0 && c.now >= w.clock &&
    match c
    case Heartbeat(guid, _, persist) =>
      // Only an active device is accepted; `persist` says that its row is written at once.
      guid in w.devices && w.devices[guid].status in {STATUS_ONLINE, STATUS_OFFLINE}
      && TrimSpace(guid) == guid && guid != ""
    case Scan(now, delay, alerted) =>
      |alerted| <= SCAN_LIMIT && forall guid | guid in alerted :: Due(w, guid, now, delay)
    case SetStatus(guid, _, _) => guid in w.devices
    case AddDevice(guid, device, now) =>
      // A new device has a new, trimmed guid, and has not been seen later than now.
      guid !in w.devices && TrimSpace(guid) == guid && device.lastSeenTime <= now
      && forall e | e in w.events :: e.guid != guid
    case DeleteEvent(i, _) => i < |w.events|
    case _ => true
  }

  /** An event is written under the trimmed guid. */
  function NewEvents(alerted: seq<string>, now: int): seq<Event> {
    seq(|alerted|, i requires 0 <= i < |alerted| => Event(TrimSpace(alerted[i]), now, false))
  }

  /** A change; `order` lists the devices that a scan alerts. */
  function Apply(w0: World, c: Change, order: seq<string>): World {
    var w := w0.(clock := c.now);
    match c
    case Heartbeat(guid, now, persist) =>
      var dirty := Raise(w.dirty, guid, now);
      if persist then
        w.(dirty := Acked(dirty, map[guid := now]), devices := w.devices[guid := Device(STATUS_ONLINE, now)])
      else w.(dirty := dirty)
    case TouchOnline(raw, now) =>
      if TouchWrites(w.devices, TrimSpace(raw), now) then w.(devices := Seen(w.devices, {TrimSpace(raw)}, now)) else w
    case Register(guid, now) =>
      if guid in w.devices then w.(devices := w.devices[guid := Device(STATUS_ONLINE, now)]) else w
    case TunnelTouch(raw, now) => if Blank(raw) then w else w.(dirty := Raise(w.dirty, TrimSpace(raw), now))
    case FlushOk(now) => w.(devices := Seen(w.devices, w.dirty.Keys, now), dirty := Acked(w.dirty, w.dirty))
    case FlushFailed(_) => w
    case MarkStale(now, timeout) =>
      w.(devices := map guid | guid in w.devices ::
           if Stale(w.devices[guid], now, timeout) then w.devices[guid].(status := STATUS_OFFLINE) else w.devices[guid])
    case MarkAllOffline(_) =>
      w.(devices := map guid | guid in w.devices ::
           if w.devices[guid].status == STATUS_ONLINE then w.devices[guid].(status := STATUS_OFFLINE)
             else w.devices[guid])
    case Scan(now, _, _) => w.(events := w.events + NewEvents(order, now))
    case SetStatus(guid, status, _) =>
      if guid in w.devices then w.(devices := w.devices[guid := w.devices[guid].(status := status)]) else w
    case AddDevice(guid, device, _) => w.(devices := w.devices[guid := device])
    case RemoveDevice(guid, _) => w.(devices := w.devices - {guid}, dirty := w.dirty - {guid})
    case DeleteEvent(i, _) => if i < |w.events| then w.(events := w.events[i := w.events[i].(deleted := true)]) else w
  }

  ghost predicate Lists(order: seq<string>, c: Change) {
    c.Scan? ==> NoRepeats(order) && forall guid :: guid in order <==> guid in c.alerted
  }

  // ---------------------------------------------------------------- one alert for each outage

  lemma {:induction false} AlertsLater(events: seq<Event>, guid: string, since: int, later: int)
    requires since <= later
    ensures Alerts(events, guid, later) <= Alerts(events, guid, since)
  {
    if events != [] {
      AlertsLater(events[..|events| - 1], guid, since, later);
    }
  }

  lemma {:induction false} AlertsConcat(a: seq<Event>, b: seq<Event>, guid: string, since: int)
    ensures Alerts(a + b, guid, since) == Alerts(a, guid, since) + Alerts(b, guid, since)
    decreases |b|
  {
    if b == [] {
      assert a + b == a;
    } else {
      assert (a + b)[..|a + b| - 1] == a + b[..|b| - 1];
      AlertsConcat(a, b[..|b| - 1], guid, since);
    }
  }

  lemma {:induction false} AlertsNew(order: seq<string>, now: int, guid: string, since: int)
    requires NoRepeats(order) && forall g | g in order :: TrimSpace(g) == g
    ensures Alerts(NewEvents(order, now), guid, since) == if guid in order && now >= since then 1 else 0
  {
    hide TrimSpace;
    if order != [] {
      var n := |order| - 1;
      var front := order[..n];
      assert order == front + [order[n]];
      assert forall g | g in front :: g in order;
      AlertsNew(front, now, guid, since);
      assert NewEvents(order, now)[..n] == NewEvents(front, now);
      assert NewEvents(order, now)[n] == Event(order[n], now, false);
      assert guid == order[n] ==> guid !in front;
    }
  }

  lemma {:induction false} AlertsDeleted(events: seq<Event>, i: nat, guid: string, since: int)
    requires i < |events|
    ensures Alerts(events[i := events[i].(deleted := true)], guid, since) <= Alerts(events, guid, since)
  {
    var n := |events| - 1;
    var after := events[i := events[i].(deleted := true)];
    if i < n {
      assert after[..n] == events[..n][i := events[i].(deleted := true)];
      AlertsDeleted(events[..n], i, guid, since);
    } else {
      assert after[..n] == events[..n];
    }
  }

  lemma {:induction false} AlertsOfStranger(events: seq<Event>, guid: string, since: int)
    requires forall e | e in events :: e.guid != guid
    ensures Alerts(events, guid, since) == 0
  {
    if events != [] {
      assert events[|events| - 1] in events;
      assert forall e | e in events[..|events| - 1] :: e in events;
      AlertsOfStranger(events[..|events| - 1], guid, since);
    }
  }

  /** Each device has at most one undeleted offline event since it was last seen; guids are trimmed, and no
      device was seen later than the clock. */
  predicate WorldInv(w: World) {
    && (forall guid | guid in w.devices :: TrimSpace(guid) == guid && w.devices[guid].lastSeenTime <= w.clock)
    && (forall guid | guid in w.devices :: Alerts(w.events, guid, w.devices[guid].lastSeenTime) <= 1)
  }

  /** No change moves a device's last-seen time back. */
  lemma SeenOnlyRises(w: World, c: Change, order: seq<string>, guid: string)
    requires WorldInv(w) && Possible(w, c) && guid in w.devices && guid in Apply(w, c, order).devices
    ensures w.devices[guid].lastSeenTime <= Apply(w, c, order).devices[guid].lastSeenTime <= c.now
  {
  }

  lemma ApplyKeepsAlerts(w: World, c: Change, order: seq<string>, guid: string)
    requires WorldInv(w) && Possible(w, c) && Lists(order, c) && guid in Apply(w, c, order).devices
    ensures var v := Apply(w, c, order);
            Alerts(v.events, guid, v.devices[guid].lastSeenTime) <= 1
  {
    var v := Apply(w, c, order);
    if guid in w.devices {
      SeenOnlyRises(w, c, order, guid);
      AlertsLater(w.events, guid, w.devices[guid].lastSeenTime, v.devices[guid].lastSeenTime);
      if c.Scan? {
        AlertsConcat(w.events, NewEvents(order, c.now), guid, v.devices[guid].lastSeenTime);
        AlertsNew(order, c.now, guid, v.devices[guid].lastSeenTime);
        assert guid in order ==> Due(w, guid, c.now, c.delay);
      } else if c.DeleteEvent? {
        AlertsDeleted(w.events, c.index, guid, v.devices[guid].lastSeenTime);
      }
    } else {
      AlertsOfStranger(w.events, guid, v.devices[guid].lastSeenTime);
    }
  }

  /** One alert per outage, kept by every step. */
  lemma ApplyKeepsInv(w: World, c: Change, order: seq<string>)
    requires WorldInv(w) && Possible(w, c) && Lists(order, c)
    ensures WorldInv(Apply(w, c, order))
  {
    var v := Apply(w, c, order);
    forall guid | guid in v.devices
      ensures TrimSpace(guid) == guid && v.devices[guid].lastSeenTime <= v.clock
              && Alerts(v.events, guid, v.devices[guid].lastSeenTime) <= 1
    {
      ApplyKeepsAlerts(w, c, order, guid);
      if guid in w.devices {
        SeenOnlyRises(w, c, order, guid);
      }
    }
  }

  datatype Entry = Entry(change: Change, order: seq<string>)

  ghost predicate Run(w: World, entries: seq<Entry>, v: World)
    decreases |entries|
  {
    if entries == [] then v == w
    else
      Possible(w, entries[0].change) && Lists(entries[0].order, entries[0].change)
      && Run(Apply(w, entries[0].change, entries[0].order), entries[1..], v)
  }

  lemma {:induction false} OneAlertPerOutage(w: World, entries: seq<Entry>, v: World)
    requires WorldInv(w) && Run(w, entries, v)
    ensures WorldInv(v) && v.clock >= w.clock
    decreases |entries|
  {
    if entries != [] {
      ApplyKeepsInv(w, entries[0].change, entries[0].order);
      OneAlertPerOutage(Apply(w, entries[0].change, entries[0].order), entries[1..], v);
    }
  }

  /** A scan that writes its event for a due device leaves it with exactly one, so the next scan finds it
      not due. */
  lemma ScanAlertsOnce(w: World, c: Change, order: seq<string>, guid: string, later: int, delay: int)
    requires WorldInv(w) && Possible(w, c) && c.Scan? && Lists(order, c) && guid in c.alerted
    ensures var v := Apply(w, c, order);
            Alerts(v.events, guid, v.devices[guid].lastSeenTime) == 1 && !Due(v, guid, later, delay)
  {
    AlertsConcat(w.events, NewEvents(order, c.now), guid, w.devices[guid].lastSeenTime);
    AlertsNew(order, c.now, guid, w.devices[guid].lastSeenTime);
    assert Due(w, guid, c.now, c.delay);
  }

  // ---------------------------------------------------------------- the cleaner spares what is alive

  predicate Removes(c: Change, guid: string) {
    (c.RemoveDevice? || c.AddDevice?) && c.guid == guid
  }

  /** From a moment when the device was last seen at `at` or later, no cleaner pass whose cutoff is not later
      than `at` marks it offline, whatever happens in between. */
  lemma {:induction false} SeenDeviceIsSpared(w: World, entries: seq<Entry>, v: World, guid: string, at: int,
                                              now: int, timeout: int)
    requires WorldInv(w) && Run(w, entries, v) && guid in w.devices && 0 < at <= w.devices[guid].lastSeenTime
    requires forall k | 0 <= k < |entries| :: !Removes(entries[k].change, guid)
    requires now - timeout <= at
    ensures guid in v.devices && !Stale(v.devices[guid], now, timeout)
    decreases |entries|
  {
    if entries != [] {
      var c, order := entries[0].change, entries[0].order;
      assert !Removes(c, guid);
      ApplyKeepsInv(w, c, order);
      SeenOnlyRises(w, c, order, guid);
      assert forall k | 0 <= k < |entries[1..]| :: entries[1..][k] == entries[k + 1];
      SeenDeviceIsSpared(Apply(w, c, order), entries[1..], v, guid, at, now, timeout);
    }
  }

  /** A cleaner round spares a device whose touch is in the registry when the round's flush runs and is not
      older than the round's cutoff, even with other steps between the flush and the marking. */
  lemma CleanerSparesTouchedDevice(w: World, flushed: int, entries: seq<Entry>, v: World, guid: string, now: int,
                                   timeout: int)
    requires WorldInv(w) && Possible(w, FlushOk(flushed)) && guid in w.devices
             && w.devices[guid].status != STATUS_DISABLED
    requires guid in w.dirty && 0 < w.dirty[guid] <= flushed && now - timeout <= w.dirty[guid]
    requires Run(Apply(w, FlushOk(flushed), []), entries, v)
    requires forall k | 0 <= k < |entries| :: !Removes(entries[k].change, guid)
    ensures guid in v.devices
    ensures Apply(v, MarkStale(now, timeout), []).devices[guid].status == v.devices[guid].status
  {
    var w1 := Apply(w, FlushOk(flushed), []);
    ApplyKeepsInv(w, FlushOk(flushed), []);
    SeenDeviceIsSpared(w1, entries, v, guid, w.dirty[guid], now, timeout);
  }

  /** The parts of one cleaner round. */
  datatype Round = Round(flushOk: bool, flushed: int, markOk: bool, marked: int, timeout: int,
                         scanOk: bool, scanned: int, delay: int, alerted: set<string>)

  /** A round whose flush fails stops there: it marks nothing and alerts nothing. So does one whose marking
      fails. */
  function CleanerRound(w: World, r: Round, order: seq<string>): World {
    if !r.flushOk then Apply(w, FlushFailed(r.flushed), [])
    else
      var w1 := Apply(w, FlushOk(r.flushed), []);
      if !r.markOk then w1
      else
        var w2 := Apply(w1, MarkStale(r.marked, r.timeout), []);
        if !r.scanOk then w2 else Apply(w2, Scan(r.scanned, r.delay, r.alerted), order)
  }

  /** Touched at some moment since `at`: it was seen then, or the registry still has it. */
  predicate Alive(w: World, guid: string, at: int) {
    && guid in w.devices && w.devices[guid].status != STATUS_DISABLED && 0 < at <= w.clock
    && (w.devices[guid].lastSeenTime >= at || StampOf(w.dirty, guid) >= at)
  }

  /** A change of the device's own row by hand. */
  predicate Handles(c: Change, guid: string) {
    Removes(c, guid) || (c.SetStatus? && c.guid == guid)
  }

  predicate Touches(c: Change, guid: string) {
    (c.Heartbeat? && c.guid == guid) || (c.TunnelTouch? && TrimSpace(c.guid) == guid != "")
  }

  /** The round leaves the device's status as it is, or makes it online. */
  predicate Spares(w: World, r: Round, order: seq<string>, guid: string) {
    var v := CleanerRound(w, r, order);
    guid in w.devices && guid in v.devices && v.devices[guid].status in {w.devices[guid].status, STATUS_ONLINE}
  }

  lemma TouchMakesAlive(w: World, c: Change, guid: string)
    requires WorldInv(w) && Possible(w, c) && Touches(c, guid)
    requires guid in w.devices && w.devices[guid].status != STATUS_DISABLED
    ensures Alive(Apply(w, c, []), guid, c.now)
  {
  }

  lemma StaysAlive(w: World, c: Change, order: seq<string>, guid: string, at: int)
    requires WorldInv(w) && Possible(w, c) && Alive(w, guid, at) && !Handles(c, guid)
    ensures Alive(Apply(w, c, order), guid, at)
  {
    SeenOnlyRises(w, c, order, guid);
  }

  lemma {:induction false} RunStaysAlive(w: World, entries: seq<Entry>, v: World, guid: string, at: int)
    requires WorldInv(w) && Run(w, entries, v) && Alive(w, guid, at)
    requires forall k | 0 <= k < |entries| :: !Handles(entries[k].change, guid)
    ensures WorldInv(v) && Alive(v, guid, at)
    decreases |entries|
  {
    if entries != [] {
      var c, order := entries[0].change, entries[0].order;
      assert !Handles(c, guid);
      hide Alive, WorldInv, Apply, Possible;
      ApplyKeepsInv(w, c, order);
      StaysAlive(w, c, order, guid, at);
      assert forall k | 0 <= k < |entries[1..]| :: entries[1..][k] == entries[k + 1];
      RunStaysAlive(Apply(w, c, order), entries[1..], v, guid, at);
    }
  }

  /** A whole round turns no device offline that a heartbeat or a tunnel has touched since the round's cutoff,
      whatever happens between the touch and the round, and whichever parts of the round fail. */
  lemma RoundSparesTouchedDevice(w: World, c: Change, entries: seq<Entry>, v: World, r: Round, order: seq<string>,
                                 guid: string)
    requires WorldInv(w) && Possible(w, c) && Touches(c, guid)
    requires guid in w.devices && w.devices[guid].status != STATUS_DISABLED
    requires Run(Apply(w, c, []), entries, v) && forall k | 0 <= k < |entries| :: !Handles(entries[k].change, guid)
    requires v.clock <= r.flushed && r.marked - r.timeout <= c.now
    ensures Spares(v, r, order, guid)
  {
    TouchMakesAlive(w, c, guid);
    ApplyKeepsInv(w, c, []);
    RunStaysAlive(Apply(w, c, []), entries, v, guid, c.now);
    AliveIsSpared(v, r, order, guid, c.now);
  }

  lemma AliveIsSpared(w: World, r: Round, order: seq<string>, guid: string, at: int)
    requires Alive(w, guid, at) && w.clock <= r.flushed && r.marked - r.timeout <= at
    ensures Spares(w, r, order, guid)
  {
  }

  /** A round turns a device offline exactly if its flush and its marking succeed, and the device, after what the
      flush has written for it, is online and was last seen before the cutoff or never. */
  lemma RoundMarksIff(w: World, r: Round, order: seq<string>, guid: string)
    requires guid in w.devices && w.devices[guid].status != STATUS_OFFLINE
    ensures var touched := guid in w.dirty && w.devices[guid].status != STATUS_DISABLED;
            var seen := if touched then r.flushed else w.devices[guid].lastSeenTime;
            var v := CleanerRound(w, r, order);
            guid in v.devices
            && (v.devices[guid].status == STATUS_OFFLINE <==>
                  && r.flushOk && r.markOk && (touched || w.devices[guid].status == STATUS_ONLINE)
                  && (seen == 0 || seen < r.marked - r.timeout))
  {
  }

  // ---------------------------------------------------------------- what the changes do

  /** Only this device and the registry's entry for it have changed. */
  predicate OnlyDevice(w: World, v: World, guid: string) {
    v.devices - {guid} == w.devices - {guid} && v.devices.Keys == w.devices.Keys && v.events == w.events
    && v.dirty - {guid} == w.dirty - {guid}
  }

  /** A heartbeat is noted at once: in the device's row, which makes it online, or in the registry. */
  lemma HeartbeatIsNoted(w: World, guid: string, now: int, persist: bool)
    requires Possible(w, Heartbeat(guid, now, persist))
    ensures var v := Apply(w, Heartbeat(guid, now, persist), []);
            && OnlyDevice(w, v, guid)
            && (persist ==> v.devices[guid] == Device(2, now) && (guid in v.dirty ==> v.dirty[guid] > now))
            && (!persist ==> v.devices == w.devices && guid in v.dirty && v.dirty[guid] >= now)
  {
    var v := Apply(w, Heartbeat(guid, now, persist), []);
    assert v.devices - {guid} == w.devices - {guid} && v.dirty - {guid} == w.dirty - {guid};
  }

  /** A touch or a registration of a device leaves it online and seen just now, a touch within fifteen seconds;
      a touch leaves a disabled one as it is. */
  lemma TouchMakesOnline(w: World, raw: string, now: int)
    requires TrimSpace(raw) in w.devices
    ensures var guid, v := TrimSpace(raw), Apply(w, TouchOnline(raw, now), []);
            && OnlyDevice(w, v, guid) && v.dirty == w.dirty
            && if w.devices[guid].status == 4 then v.devices == w.devices
               else v.devices[guid].status == 2 && v.devices[guid].lastSeenTime >= now - 15_000
    ensures var guid := TrimSpace(raw);
            var v := Apply(w, Register(guid, now), []);
            OnlyDevice(w, v, guid) && v.devices[guid] == Device(2, now)
  {
    hide TrimSpace;
    var guid := TrimSpace(raw);
    assert Apply(w, TouchOnline(raw, now), []).devices - {guid} == w.devices - {guid};
    assert Apply(w, Register(guid, now), []).devices - {guid} == w.devices - {guid};
  }

  /** Marking all online devices offline does that to each of them, and keeps the time when it was last seen. */
  lemma AllOnlineGoOffline(w: World, now: int, guid: string)
    ensures var v := Apply(w, MarkAllOffline(now), []);
            v.devices.Keys == w.devices.Keys && v.events == w.events && v.dirty == w.dirty
            && (guid in w.devices ==>
                  v.devices[guid] == Device(if w.devices[guid].status == 2 then 3 else w.devices[guid].status,
                                            w.devices[guid].lastSeenTime))
  {
  }

  lemma {:induction false} NoAlertIff(events: seq<Event>, guid: string, since: int)
    ensures Alerts(events, guid, since) == 0
            <==> forall e | e in events && e.guid == guid && !e.deleted :: e.createTime < since
  {
    if events != [] {
      var front, last := events[..|events| - 1], events[|events| - 1];
      NoAlertIff(front, guid, since);
      assert forall e :: e in events <==> e in front || e == last;
    }
  }

  /** A device is due for an alert exactly if it is offline, has not been heard of for the delay, neither in its
      row nor in the registry, and has no undeleted event from this outage. */
  lemma DueIff(w: World, guid: string, now: int, delay: int)
    ensures Due(w, guid, now, delay)
            <==> guid in w.devices && TrimSpace(guid) != "" && w.devices[guid].status == 3
                 && (w.devices[guid].lastSeenTime == 0 || w.devices[guid].lastSeenTime + delay < now)
                 && (if guid in w.dirty then w.dirty[guid] else 0) <= now - delay
                 && forall e | e in w.events && e.guid == guid && !e.deleted ::
                      e.createTime < w.devices[guid].lastSeenTime
  {
    hide TrimSpace, Alerts;
    if guid in w.devices {
      NoAlertIff(w.events, guid, w.devices[guid].lastSeenTime);
    }
  }

  /** The alerts of a scan are written for the devices it alerts, and no other. */
  lemma ScanWritesAlerts(w: World, c: Change, order: seq<string>, guid: string)
    requires c.Scan? && Lists(order, c) && forall g | g in order :: TrimSpace(g) == g
    ensures var v := Apply(w, c, order);
            && v.devices == w.devices && v.dirty == w.dirty && w.events <= v.events
            && |v.events| == |w.events| + |order|
            && (guid in c.alerted <==> Event(guid, c.now, false) in v.events[|w.events|..])
  {
    hide TrimSpace;
    var added := NewEvents(order, c.now);
    assert Apply(w, c, order).events[|w.events|..] == added;
    if guid in order {
      var i :| 0 <= i < |order| && order[i] == guid;
      assert added[i] == Event(guid, c.now, false);
    }
  }

  /** A round whose parts all succeed writes the alerts of its scan; another one writes none. */
  lemma RoundWritesAlerts(w: World, r: Round, order: seq<string>, guid: string)
    requires Lists(order, Scan(r.scanned, r.delay, r.alerted)) && forall g | g in order :: TrimSpace(g) == g
    ensures var v := CleanerRound(w, r, order);
            if r.flushOk && r.markOk && r.scanOk then
              w.events <= v.events && |v.events| == |w.events| + |order|
              && (guid in r.alerted <==> Event(guid, r.scanned, false) in v.events[|w.events|..])
            else v.events == w.events
  {
    hide TrimSpace, Lists;
    if r.flushOk && r.markOk && r.scanOk {
      var w2 := Apply(Apply(w, FlushOk(r.flushed), []), MarkStale(r.marked, r.timeout), []);
      ScanWritesAlerts(w2, Scan(r.scanned, r.delay, r.alerted), order, guid);
    }
  }

  /** An outage comes to an alert: a device that a round turns offline is due in its scan, if it has been silent
      for the scan's delay and had no event from this outage before. */
  lemma OutageComesDue(w: World, r: Round, guid: string)
    requires guid in w.devices && w.devices[guid].status == 2 && guid !in w.dirty && TrimSpace(guid) == guid != ""
    requires r.flushOk && r.markOk && !r.scanOk
    requires w.devices[guid].lastSeenTime == 0 || w.devices[guid].lastSeenTime < r.marked - r.timeout
    requires w.devices[guid].lastSeenTime == 0 || w.devices[guid].lastSeenTime + r.delay < r.scanned
    requires r.delay <= r.scanned
    requires forall e | e in w.events && e.guid == guid && !e.deleted :: e.createTime < w.devices[guid].lastSeenTime
    ensures Due(CleanerRound(w, r, []), guid, r.scanned, r.delay)
  {
    hide TrimSpace, Alerts;
    NoAlertIff(w.events, guid, w.devices[guid].lastSeenTime);
  }

  // ---------------------------------------------------------------- the code

  /** The devices of a query result that get an event: the ones that are due and whose insertion succeeds. */
  function Alerted(w: World, found: seq<string>, now: int, delay: int, inserts: nat -> bool): seq<string> {
    if found == [] then []
    else
      var n := |found| - 1;
      Alerted(w, found[..n], now, delay, inserts)
      + if !Blank(found[n]) && StampOf(w.dirty, found[n]) <= now - delay && inserts(n) then [found[n]] else []
  }

  predicate Always(n: nat) {
    true
  }

  /** When all insertions succeed, exactly the found devices with a guid that have not been touched lately. */
  lemma {:induction false} AlertedIff(w: World, found: seq<string>, now: int, delay: int, guid: string)
    ensures guid in Alerted(w, found, now, delay, Always)
            <==> guid in found && TrimSpace(guid) != ""
                 && (if guid in w.dirty then w.dirty[guid] else 0) <= now - delay
  {
    hide TrimSpace;
    if found != [] {
      var front, last := found[..|found| - 1], found[|found| - 1];
      AlertedIff(w, front, now, delay, guid);
      assert found == front + [last];
    }
  }

  lemma {:induction false} AlertedAreDue(w: World, found: seq<string>, now: int, delay: int, inserts: nat -> bool)
    requires NoRepeats(found) && forall g | g in found :: Found(w, g, now, delay)
    ensures var q := Alerted(w, found, now, delay, inserts);
            NoRepeats(q) && |q| <= |found| && forall g | g in q :: g in found && Due(w, g, now, delay)
  {
    if found != [] {
      var n := |found| - 1;
      var front := found[..n];
      assert found[n] in found && forall g | g in front :: g in found;
      hide Found;
      AlertedAreDue(w, front, now, delay, inserts);
      assert found[n] !in front;
    }
  }

  lemma {:induction false} DistinctSize(q: seq<string>)
    requires NoRepeats(q)
    ensures |set g | g in q| == |q|
  {
    if q != [] {
      var front, last := q[..|q| - 1], q[|q| - 1];
      DistinctSize(front);
      assert last !in front;
      assert (set g | g in q) == (set g | g in front) + {last};
    }
  }

  function DelayOf(timeout: int): (delay: int)
    ensures delay == if timeout > 0 then timeout else 10 * 60 * 1000
  {
    if timeout <= 0 then 600_000 else timeout
  }

  function ScanOf(w: World, found: seq<string>, now: int, delay: int, inserts: nat -> bool): Change {
    Scan(now, delay, set g | g in Alerted(w, found, now, delay, inserts))
  }

  lemma ScanIsPossible(w: World, found: seq<string>, now: int, delay: int, inserts: nat -> bool)
    requires 0 < now && w.clock <= now && NoRepeats(found) && |found| <= SCAN_LIMIT
    requires forall g | g in found :: Found(w, g, now, delay)
    ensures var scan := ScanOf(w, found, now, delay, inserts);
            Possible(w, scan) && Lists(Alerted(w, found, now, delay, inserts), scan)
  {
    hide Alerted;
    AlertedAreDue(w, found, now, delay, inserts);
    DistinctSize(Alerted(w, found, now, delay, inserts));
  }

  lemma AlertedNext(w: World, found: seq<string>, i: nat, now: int, delay: int, inserts: nat -> bool)
    requires i < |found|
    ensures var before := Alerted(w, found[..i], now, delay, inserts);
            var goes := !Blank(found[i]) && StampOf(w.dirty, found[i]) <= now - delay && inserts(i);
            && Alerted(w, found[..i + 1], now, delay, inserts) == (if goes then before + [found[i]] else before)
            && NewEvents(Alerted(w, found[..i + 1], now, delay, inserts), now)
               == NewEvents(before, now) + if goes then [Event(TrimSpace(found[i]), now, false)] else []
  {
    assert found[..i + 1][..i] == found[..i];
  }

  lemma CreatedNext(w: World, found: seq<string>, i: nat, now: int, delay: int)
    requires i < |found|
    ensures |Alerted(w, found[..i + 1], now, delay, Always)|
            == |Alerted(w, found[..i], now, delay, Always)|
               + if !Blank(found[i]) && StampOf(w.dirty, found[i]) <= now - delay then 1 else 0
  {
    AlertedNext(w, found, i, now, delay, Always);
  }

  lemma AlertedNone(w: World, found: seq<string>, now: int, delay: int, inserts: nat -> bool)
    ensures Alerted(w, found[..0], now, delay, inserts) == [] && Alerted(w, found[..0], now, delay, Always) == []
    ensures NewEvents([], now) == []
  {
  }

  class OfflineCleaner {
    var clock: int
    var dirty: Stamps
    var devices: Devices
    var events: seq<Event>

    ghost function View(): World
      reads this
    {
      World(clock, dirty, devices, events)
    }

    constructor (world: World)
      ensures View() == world
    {
      clock, dirty, devices, events := world.clock, world.dirty, world.devices, world.events;
    }

    /** The loop over the devices that the query of RecordStaleOfflineEvents has found. */
    method WriteEvents(found: seq<string>, now: int, delay: int, inserts: nat -> bool) returns (created: nat)
      modifies this`events
      ensures var order := Alerted(old(View()), found, now, delay, inserts);
              events == old(events) + NewEvents(order, now)
      ensures created == |Alerted(old(View()), found, now, delay, Always)|
    {
      hide Alerted, NewEvents, TrimSpace, StampOf;
      created := 0;
      ghost var w := View();
      AlertedNone(w, found, now, delay, inserts);
      for i := 0 to |found|
        invariant dirty == w.dirty && created == |Alerted(w, found[..i], now, delay, Always)|
        invariant events == w.events + NewEvents(Alerted(w, found[..i], now, delay, inserts), now)
      {
        AlertedNext(w, found, i, now, delay, inserts);
        CreatedNext(w, found, i, now, delay);
        if TrimSpace(found[i]) == "" || StampOf(dirty, found[i]) > now - delay {
          continue;
        }
        if inserts(i) {
          events := events + [Event(TrimSpace(found[i]), now, false)];
        }
        created := created + 1;
      }
      assert found[..|found|] == found;
    }

    /** RecordStaleOfflineEvents is a scan that alerts exactly the found devices that are due, as far as their
        events can be written. */
    method RecordStaleOfflineEvents(found: seq<string>, now: int, timeout: int,
                                    inserts: nat -> bool)
        returns (created: nat)
      requires WorldInv(View()) && 0 < now && clock <= now && NoRepeats(found) && |found| <= 500
      requires forall g | g in found :: Found(View(), g, now, DelayOf(timeout))
      modifies this`events, this`clock
      ensures WorldInv(View())
      ensures var order := Alerted(old(View()), found, now, DelayOf(timeout), inserts);
              && Possible(old(View()), ScanOf(old(View()), found, now, DelayOf(timeout), inserts))
              && View() == Apply(old(View()), ScanOf(old(View()), found, now, DelayOf(timeout), inserts), order)
              && created == |Alerted(old(View()), found, now, DelayOf(timeout), Always)|
    {
      hide Alerted, WorldInv, Found, Possible;
      var delay := DelayOf(timeout);
      ScanIsPossible(View(), found, now, delay, inserts);
      ApplyKeepsInv(View(), ScanOf(View(), found, now, delay, inserts), Alerted(View(), found, now, delay, inserts));
      created := WriteEvents(found, now, delay, inserts);
      clock := now;
    }
  }
}
