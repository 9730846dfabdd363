/**
 The liveness registry: touches are coalesced in memory and flushed to the device table. A flush takes a
 snapshot, commits, and acknowledges in three steps, and other goroutines act in between.
 */
module Liveness {
  import opened Sequences
  import opened Text

  const FLUSH_BATCH_SIZE := 300

  const STATUS_ONLINE := 2
  const STATUS_OFFLINE := 3
  const STATUS_DISABLED := 4

  datatype Device = Device(status: int, lastSeenTime: int)

  type Devices = map<string, Device>
  type Stamps = map<string, int>

  function StampOf(stamps: Stamps, guid: string): int {
    if guid in stamps then stamps[guid] else 0
  }

  /** The registry's entry only ever rises. */
  function Raise(stamps: Stamps, guid: string, at: int): Stamps {
    if at > StampOf(stamps, guid) then stamps[guid := at] else stamps
  }

  /** ack: drop what is not newer than the stamps that were persisted. */
  function Acked(dirty: Stamps, persisted: Stamps): Stamps {
    map guid | guid in dirty && !(guid in persisted && dirty[guid] <= persisted[guid]) :: dirty[guid]
  }

  /** A flush's UPDATE for these guids. */
  function Seen(devices: Devices, guids: set<string>, now: int): Devices {
    map guid | guid in devices ::
      if guid in guids && devices[guid].status != STATUS_DISABLED then Device(STATUS_ONLINE, now) else devices[guid]
  }

  /** A flush after its snapshot, or after its commit. `flushMu` allows one at a time. */
  datatype Flush = NoFlush | Taken(snapshot: Stamps) | Committed(snapshot: Stamps)

  datatype Touch = Touch(guid: string, at: int)

  /** `touches` are the touches not forgotten since, and `covered` the newest stamp persisted for each guid:
      both are history. */
  datatype State = State(dirty: Stamps, devices: Devices, flush: Flush, touches: set<Touch>, covered: Stamps)

  datatype Action =
    | TouchDevice(guid: string, at: int, now: int)
    | MarkPersisted(guid: string, at: int)
    | ForgetDevice(guid: string)
    | TakeSnapshot
    | CommitFlush(now: int)
    | FailFlush
    | AckFlush
    | ChangeDevices(devices: Devices)

  predicate Enabled(s: State, a: Action) {
    match a
    case TouchDevice(_, _, now) => now > 0
    case TakeSnapshot => s.flush.NoFlush?
    case CommitFlush(now) => s.flush.Taken?
    case FailFlush => s.flush.Taken?
    case AckFlush => s.flush.Committed?
    case _ => true
  }

  function RaiseAll(stamps: Stamps, persisted: Stamps): Stamps {
    map guid | guid in stamps.Keys + persisted.Keys ::
      if StampOf(stamps, guid) < StampOf(persisted, guid) then StampOf(persisted, guid) else StampOf(stamps, guid)
  }

  function Step(s: State, a: Action): State
    requires Enabled(s, a)
  {
    match a
    case TouchDevice(raw, at, now) =>
      var guid := TrimSpace(raw);
      var stamp := if at <= 0 then now else at;
      if guid == "" then s
      else s.(dirty := Raise(s.dirty, guid, stamp), touches := s.touches + {Touch(guid, stamp)})
    case MarkPersisted(raw, at) =>
      var guid := TrimSpace(raw);
      if guid == "" then s
      else s.(dirty := Acked(s.dirty, map[guid := at]), covered := RaiseAll(s.covered, map[guid := at]))
    case ForgetDevice(raw) =>
      var guid := TrimSpace(raw);
      if guid == "" then s
      else s.(dirty := s.dirty - {guid}, touches := set t | t in s.touches && t.guid != guid)
    case TakeSnapshot => s.(flush := if s.dirty == map[] then NoFlush else Taken(s.dirty))
    case CommitFlush(now) =>
      s.(devices := Seen(s.devices, s.flush.snapshot.Keys, now), covered := RaiseAll(s.covered, s.flush.snapshot),
         flush := Committed(s.flush.snapshot))
    case FailFlush => s.(flush := NoFlush)
    case AckFlush => s.(dirty := Acked(s.dirty, s.flush.snapshot), flush := NoFlush)
    case ChangeDevices(devices) => s.(devices := devices)
  }

  predicate Kept(s: State, t: Touch) {
    (t.guid in s.dirty && t.at <= s.dirty[t.guid]) || (t.guid in s.covered && t.at <= s.covered[t.guid])
  }

  /** No touch is lost: it is still in the registry, or a successful persist has covered it. */
  predicate Inv(s: State) {
    && (forall t | t in s.touches :: Kept(s, t))
    && (s.flush.Committed? ==> forall guid | guid in s.flush.snapshot ::
          guid in s.covered && s.flush.snapshot[guid] <= s.covered[guid])
  }

  lemma StepKeepsInv(s: State, a: Action)
    requires Inv(s) && Enabled(s, a)
    ensures Inv(Step(s, a))
  {
  }

  predicate Run(s: State, actions: seq<Action>, t: State)
    decreases |actions|
  {
    if actions == [] then t == s
    else Enabled(s, actions[0]) && Run(Step(s, actions[0]), actions[1..], t)
  }

  function Started(devices: Devices): State {
    State(map[], devices, NoFlush, {}, map[])
  }

  lemma {:induction false} RunKeepsInv(s: State, actions: seq<Action>, t: State)
    requires Inv(s) && Run(s, actions, t)
    ensures Inv(t)
    decreases |actions|
  {
    if actions != [] {
      StepKeepsInv(s, actions[0]);
      RunKeepsInv(Step(s, actions[0]), actions[1..], t);
    }
  }

  predicate Forgets(a: Action, guid: string) {
    a.ForgetDevice? && TrimSpace(a.guid) == guid
  }

  lemma {:induction false} TouchIsRemembered(s: State, actions: seq<Action>, t: State, touch: Touch)
    requires Run(s, actions, t) && touch in s.touches
    requires forall k | 0 <= k < |actions| :: !Forgets(actions[k], touch.guid)
    ensures touch in t.touches
    decreases |actions|
  {
    if actions != [] {
      assert !Forgets(actions[0], touch.guid);
      assert forall k | 0 <= k < |actions[1..]| :: actions[1..][k] == actions[k + 1];
      TouchIsRemembered(Step(s, actions[0]), actions[1..], t, touch);
    }
  }

  /** In every interleaving, a touch that was made and not forgotten since is still dirty or covered. */
  lemma NoLostTouch(s: State, guid: string, at: int, now: int, actions: seq<Action>, t: State)
    requires Inv(s) && now > 0 && guid != "" && TrimSpace(guid) == guid
    requires Run(Step(s, TouchDevice(guid, at, now)), actions, t)
    requires forall k | 0 <= k < |actions| :: !Forgets(actions[k], guid)
    ensures Kept(t, Touch(guid, if at <= 0 then now else at))
  {
    var a := TouchDevice(guid, at, now);
    StepKeepsInv(s, a);
    RunKeepsInv(Step(s, a), actions, t);
    TouchIsRemembered(Step(s, a), actions, t, Touch(guid, if at <= 0 then now else at));
  }

  /** The device is neither forgotten nor persisted otherwise. */
  predicate Leaves(a: Action, guid: string) {
    !Forgets(a, guid) && !(a.MarkPersisted? && TrimSpace(a.guid) == guid)
  }

  /** A touch that the flush under way, if there is one, has not seen. */
  predicate Awaits(s: State, guid: string, at: int) {
    guid in s.dirty && s.dirty[guid] >= at && (!s.flush.NoFlush? ==> StampOf(s.flush.snapshot, guid) < at)
  }

  lemma {:induction false} TouchAwaits(s: State, actions: seq<Action>, t: State, guid: string, at: int)
    requires Run(s, actions, t) && Awaits(s, guid, at)
    requires forall k | 0 <= k < |actions| :: Leaves(actions[k], guid) && !actions[k].TakeSnapshot?
    ensures Awaits(t, guid, at)
    decreases |actions|
  {
    if actions != [] {
      assert Leaves(actions[0], guid);
      assert forall k | 0 <= k < |actions[1..]| :: actions[1..][k] == actions[k + 1];
      TouchAwaits(Step(s, actions[0]), actions[1..], t, guid, at);
    }
  }

  lemma {:induction false} SnapshotStays(s: State, actions: seq<Action>, t: State)
    requires Run(s, actions, t) && s.flush.Taken?
    requires forall k | 0 <= k < |actions| :: !actions[k].CommitFlush? && !actions[k].FailFlush?
    ensures t.flush == s.flush
    decreases |actions|
  {
    if actions != [] {
      assert !actions[0].CommitFlush? && !actions[0].FailFlush?;
      assert forall k | 0 <= k < |actions[1..]| :: actions[1..][k] == actions[k + 1];
      SnapshotStays(Step(s, actions[0]), actions[1..], t);
    }
  }

  /** A touch is written by the next successful flush. It may come while an older flush is under way, before its
      commit or after; anything may happen until the next snapshot is taken, and between that and its commit. */
  lemma NextFlushWritesTouch(s: State, guid: string, at: int, now: int, before: seq<Action>, u: State,
                             during: seq<Action>, v: State, committed: int)
    requires now > 0 && guid != "" && TrimSpace(guid) == guid
    requires var stamp := if at <= 0 then now else at;
             !s.flush.NoFlush? ==> StampOf(s.flush.snapshot, guid) < stamp
    requires Run(Step(s, TouchDevice(guid, at, now)), before, u) && u.flush.NoFlush?
    requires forall k | 0 <= k < |before| :: Leaves(before[k], guid) && !before[k].TakeSnapshot?
    requires Run(Step(u, TakeSnapshot), during, v)
    requires forall k | 0 <= k < |during| :: !during[k].CommitFlush? && !during[k].FailFlush?
    ensures Enabled(v, CommitFlush(committed))
    ensures guid in v.devices && v.devices[guid].status != STATUS_DISABLED ==>
              Step(v, CommitFlush(committed)).devices[guid] == Device(STATUS_ONLINE, committed)
  {
    var stamp := if at <= 0 then now else at;
    TouchAwaits(Step(s, TouchDevice(guid, at, now)), before, u, guid, stamp);
    SnapshotStays(Step(u, TakeSnapshot), during, v);
  }

  // ---------------------------------------------------------------- what the actions do

  /** The registry is as it was but for this device. */
  predicate OthersKept(s: State, t: State, guid: string) {
    t.dirty - {guid} == s.dirty - {guid} && t.devices == s.devices && t.flush == s.flush
  }

  /** A touch leaves the device dirty with the newest of its stamps; a stamp that is not given is the clock's. */
  lemma TouchMarksDirty(s: State, raw: string, at: int, now: int)
    requires now > 0 && TrimSpace(raw) != ""
    ensures var guid, stamp, t := TrimSpace(raw), if at <= 0 then now else at, Step(s, TouchDevice(raw, at, now));
            && OthersKept(s, t, guid) && guid in t.dirty
            && t.dirty[guid] == if guid in s.dirty && s.dirty[guid] >= stamp then s.dirty[guid] else stamp
  {
    var guid := TrimSpace(raw);
    hide TrimSpace;
    assert Step(s, TouchDevice(raw, at, now)).dirty - {guid} == s.dirty - {guid};
  }

  /** A persist of one device takes it off the registry unless a newer touch has come; a device that is forgotten
      is gone from it. */
  lemma PersistedAndForgotten(s: State, raw: string, at: int)
    requires TrimSpace(raw) != ""
    ensures var guid, t := TrimSpace(raw), Step(s, MarkPersisted(raw, at));
            && OthersKept(s, t, guid) && (guid in t.dirty <==> guid in s.dirty && s.dirty[guid] > at)
            && (guid in t.dirty ==> t.dirty[guid] == s.dirty[guid])
    ensures var guid, t := TrimSpace(raw), Step(s, ForgetDevice(raw));
            OthersKept(s, t, guid) && guid !in t.dirty
  {
    var guid := TrimSpace(raw);
    hide TrimSpace;
    assert Step(s, MarkPersisted(raw, at)).dirty - {guid} == s.dirty - {guid};
    assert Step(s, ForgetDevice(raw)).dirty - {guid} == s.dirty - {guid};
  }

  /** A flush writes the devices that were dirty when it began, unless they are disabled, and then drops those that
      have not been touched since; with a failed commit it drops nothing. */
  lemma FlushTakesEffect(s: State, now: int, guid: string)
    requires s.flush.NoFlush? && s.dirty != map[]
    ensures var taken := Step(s, TakeSnapshot);
            Enabled(taken, CommitFlush(now)) && taken.dirty == s.dirty && taken.devices == s.devices
            && var committed := Step(taken, CommitFlush(now));
            && Enabled(committed, AckFlush) && committed.dirty == s.dirty
            && committed.devices.Keys == s.devices.Keys
            && (guid in s.devices ==>
                  committed.devices[guid] == if guid in s.dirty && s.devices[guid].status != 4 then Device(2, now)
                                             else s.devices[guid])
            && Step(committed, AckFlush).dirty == map[] && Step(taken, FailFlush) == s
  {
    assert Acked(s.dirty, s.dirty) == map[];
  }

  /** A touch that came after the snapshot survives the acknowledgement. */
  lemma NewerTouchSurvivesAck(s: State, guid: string)
    requires s.flush.Committed? && guid in s.dirty
    ensures guid in Step(s, AckFlush).dirty
            <==> guid !in s.flush.snapshot || s.dirty[guid] > s.flush.snapshot[guid]
  {
  }

  // ---------------------------------------------------------------- the batches of a flush

  lemma SeenBatch(devices: Devices, guids: seq<string>, start: nat, end: nat, now: int)
    requires start <= end <= |guids|
    ensures Seen(Seen(devices, Elements(guids[..start]), now), Elements(guids[start..end]), now)
            == Seen(devices, Elements(guids[..end]), now)
  {
  }

  function Elements(guids: seq<string>): set<string> {
    set g | g in guids
  }

  // ---------------------------------------------------------------- the registry

  class DeviceTable {
    var devices: Devices

    constructor (devices: Devices)
      ensures this.devices == devices
    {
      this.devices := devices;
    }

    /** The transaction of Flush: batches of at most 300 guids, all of them or none. `fails` says which
        statement fails, if any. */
    method UpdateSeen(guids: seq<string>, now: int, fails: nat -> bool) returns (ok: bool, batches: seq<seq<string>>)
      modifies this
      ensures ok ==> devices == Seen(old(devices), Elements(guids), now) && batches == Chunks(guids, 300)
      ensures !ok ==> devices == old(devices)
      ensures (forall k :: !fails(k)) ==> ok
    {
      var tx := devices;
      var start := 0;
      batches := [];
      assert Seen(devices, {}, now) == devices;
      while start < |guids|
        invariant 0 <= start <= |guids| && devices == old(devices)
        invariant tx == Seen(devices, Elements(guids[..start]), now)
        invariant Chunks(guids, FLUSH_BATCH_SIZE) == batches + Chunks(guids[start..], FLUSH_BATCH_SIZE)
      {
        var end := start + FLUSH_BATCH_SIZE;
        if end > |guids| {
          end := |guids|;
        }
        var batch := guids[start..end];
        if fails(|batches|) {
          return false, batches;
        }
        SeenBatch(devices, guids, start, end, now);
        NextChunk(guids, start, end, FLUSH_BATCH_SIZE);
        tx := Seen(tx, Elements(batch), now);
        batches, start := batches + [batch], end;
      }
      assert guids[..|guids|] == guids;
      devices := tx;
      return true, batches;
    }
  }

  /** The registry while an acknowledgement has the guids `todo` before it. */
  function AckedExcept(dirty: Stamps, persisted: Stamps, todo: set<string>): Stamps {
    map guid | guid in dirty && (guid in todo || !(guid in persisted && dirty[guid] <= persisted[guid])) :: dirty[guid]
  }

  lemma AckOne(dirty: Stamps, persisted: Stamps, todo: set<string>, guid: string)
    requires guid in todo && guid in persisted
    ensures var now := AckedExcept(dirty, persisted, todo);
            AckedExcept(dirty, persisted, todo - {guid})
            == if StampOf(now, guid) <= persisted[guid] then now - {guid} else now
  {
  }

  class LivenessRegistry {
    var dirty: Stamps

    constructor ()
      ensures dirty == map[]
    {
      dirty := map[];
    }

    method Touch(deviceGuid: string, at: int, now: int)
      modifies this
      ensures var guid := TrimSpace(deviceGuid);
              dirty == if guid == "" then old(dirty) else Raise(old(dirty), guid, if at <= 0 then now else at)
    {
      var guid := TrimSpace(deviceGuid);
      if guid == "" {
        return;
      }
      var stamp := if at <= 0 then now else at;
      if stamp > StampOf(dirty, guid) {
        dirty := dirty[guid := stamp];
      }
    }

    /** ack, with the entries of the snapshot in any order. */
    method Ack(snapshot: Stamps)
      modifies this
      ensures dirty == Acked(old(dirty), snapshot)
    {
      ghost var before := dirty;
      var todo := snapshot.Keys;
      while todo != {}
        invariant todo <= snapshot.Keys && dirty == AckedExcept(before, snapshot, todo)
        decreases |todo|
      {
        var guid :| guid in todo;
        if StampOf(dirty, guid) <= snapshot[guid] {
          dirty := dirty - {guid};
        }
        AckOne(before, snapshot, todo, guid);
        todo := todo - {guid};
      }
    }

    method MarkPersisted(deviceGuid: string, at: int)
      modifies this
      ensures var guid := TrimSpace(deviceGuid);
              dirty == if guid == "" then old(dirty) else Acked(old(dirty), map[guid := at])
    {
      var guid := TrimSpace(deviceGuid);
      if guid == "" {
        return;
      }
      Ack(map[guid := at]);
    }

    method ForgetDevice(deviceGuid: string)
      modifies this
      ensures var guid := TrimSpace(deviceGuid);
              dirty == if guid == "" then old(dirty) else old(dirty) - {guid}
    {
      var guid := TrimSpace(deviceGuid);
      if guid == "" {
        return;
      }
      dirty := dirty - {guid};
    }

    /** The keys of the snapshot, in some order, each once. */
    method Guids(snapshot: Stamps) returns (guids: seq<string>)
      ensures Elements(guids) == snapshot.Keys && |guids| == |snapshot|
    {
      guids := [];
      var todo := snapshot.Keys;
      while todo != {}
        invariant todo <= snapshot.Keys && Elements(guids) == snapshot.Keys - todo && |guids| + |todo| == |snapshot|
        decreases |todo|
      {
        var guid :| guid in todo;
        assert Elements(guids + [guid]) == Elements(guids) + {guid};
        guids := guids + [guid];
        todo := todo - {guid};
      }
    }

    /** Flush with nobody in between: the three steps of the protocol in a row. */
    method Flush(table: DeviceTable, now: int, fails: nat -> bool) returns (ok: bool)
      modifies this, table
      ensures ok ==> dirty == map[] && table.devices == Seen(old(table.devices), old(dirty).Keys, now)
      ensures !ok ==> dirty == old(dirty) && table.devices == old(table.devices)
    {
      var snapshot := dirty;
      if snapshot == map[] {
        assert Seen(table.devices, {}, now) == table.devices;
        return true;
      }
      var guids := Guids(snapshot);
      var batches;
      ok, batches := table.UpdateSeen(guids, now, fails);
      if !ok {
        return false;
      }
      Ack(snapshot);
      assert Acked(snapshot, snapshot) == map[];
    }
  }
}
