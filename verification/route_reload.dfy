/**
 When the route snapshot is fresh: writers commit and then ask for a reload through a channel of one slot;
 the runner waits, drains the channel, and reads the three tables in three queries.
 */
module RouteReload {
  import opened Text
  import RouteCache

  type Rows = RouteCache.Tables
  type Routes = map<string, RouteCache.Route>

  /** The runner, which starts with a reload that waits for no request. A reading phase holds what its queries have
      returned so far. */
  datatype Phase =
    | Starting
    | Idle
    | Waiting
    | Draining
    | ReadMappings(mappings: seq<RouteCache.Mapping>)
    | ReadDevices(mappings: seq<RouteCache.Mapping>, devices: seq<RouteCache.Device>)
    | ReadPolicies(seen: Rows)

  /** `committed` counts writers that have committed and not yet called RequestReload. */
  datatype State = State(tables: Rows, committed: nat, token: bool, phase: Phase, snapshot: Option<Routes>,
                         lastOk: bool)

  datatype Action =
    | Commit(tables: Rows)
    | RequestReload
    | TakeToken
    | TimerFires
    | DrainToken
    | QueryMappings(ok: bool)
    | QueryDevices(ok: bool)
    | QueryPolicies(ok: bool)
    | Publish

  predicate Enabled(s: State, a: Action) {
    match a
    case Commit(_) => true
    case RequestReload => s.committed > 0
    case TakeToken => s.phase.Idle? && s.token
    case TimerFires => s.phase.Waiting?
    case DrainToken => s.phase.Draining? && s.token
    case QueryMappings(_) => s.phase.Starting? || (s.phase.Draining? && !s.token)
    case QueryDevices(_) => s.phase.ReadMappings?
    case QueryPolicies(_) => s.phase.ReadDevices?
    case Publish => s.phase.ReadPolicies?
  }

  /** The second query asks only for the devices of the mappings that the first has returned. */
  function DevicesFor(mappings: seq<RouteCache.Mapping>, devices: seq<RouteCache.Device>): seq<RouteCache.Device> {
    if devices == [] then []
    else
      var d := devices[|devices| - 1];
      DevicesFor(mappings, devices[..|devices| - 1])
      + if d.guid in RouteCache.WantedDevices(mappings) && d.status != RouteCache.DEVICE_DISABLED then [d] else []
  }

  function Fail(s: State): State {
    s.(phase := Idle, lastOk := false)
  }

  function Step(s: State, a: Action): State
    requires Enabled(s, a)
  {
    match a
    case Commit(tables) => s.(tables := tables, committed := s.committed + 1)
    case RequestReload => s.(committed := s.committed - 1, token := true)
    case TakeToken => s.(phase := Waiting, token := false)
    case TimerFires => s.(phase := Draining)
    case DrainToken => s.(token := false)
    case QueryMappings(ok) => if ok then s.(phase := ReadMappings(s.tables.mappings)) else Fail(s)
    case QueryDevices(ok) =>
      if ok then s.(phase := ReadDevices(s.phase.mappings, DevicesFor(s.phase.mappings, s.tables.devices))) else Fail(s)
    case QueryPolicies(ok) =>
      if ok then s.(phase := ReadPolicies(RouteCache.Tables(s.phase.mappings, s.phase.devices, s.tables.policies)))
      else Fail(s)
    case Publish => s.(phase := Idle, snapshot := Some(RouteCache.Build(s.phase.seen)), lastOk := true)
  }

  lemma IndexAppend(devices: seq<RouteCache.Device>, d: RouteCache.Device, wanted: set<string>)
    ensures RouteCache.DeviceIndex(devices + [d], wanted)
            == if d.guid in wanted && d.status != RouteCache.DEVICE_DISABLED
               then RouteCache.DeviceIndex(devices, wanted)[d.guid := d]
               else RouteCache.DeviceIndex(devices, wanted)
  {
    assert (devices + [d])[..|devices|] == devices;
  }

  /** The device query leaves out nothing that the snapshot needs. */
  lemma {:induction false} FilteredIndex(mappings: seq<RouteCache.Mapping>, devices: seq<RouteCache.Device>)
    ensures var wanted := RouteCache.WantedDevices(mappings);
            RouteCache.DeviceIndex(DevicesFor(mappings, devices), wanted) == RouteCache.DeviceIndex(devices, wanted)
  {
    if devices != [] {
      hide RouteCache.DeviceIndex, RouteCache.WantedDevices;
      var d, front := devices[|devices| - 1], devices[..|devices| - 1];
      var wanted := RouteCache.WantedDevices(mappings);
      FilteredIndex(mappings, front);
      assert devices == front + [d];
      IndexAppend(front, d, wanted);
      IndexAppend(DevicesFor(mappings, front), d, wanted);
      assert DevicesFor(mappings, front) + [] == DevicesFor(mappings, front);
    }
  }

  lemma FilteredBuild(t: Rows)
    ensures RouteCache.Build(RouteCache.Tables(t.mappings, DevicesFor(t.mappings, t.devices), t.policies))
            == RouteCache.Build(t)
  {
    FilteredIndex(t.mappings, t.devices);
  }

  /** No change is on its way to the runner. */
  predicate Quiet(s: State) {
    s.committed == 0 && !s.token
  }

  predicate Fresh(s: State) {
    s.snapshot == Some(RouteCache.Build(s.tables))
  }

  /** While no change is on its way, everything the runner has read is still what the tables say. */
  predicate Inv(s: State) {
    Quiet(s) ==>
      match s.phase
      case Starting => true
      case Idle => s.lastOk ==> Fresh(s)
      case Waiting => true
      case Draining => true
      case ReadMappings(ms) => ms == s.tables.mappings
      case ReadDevices(ms, ds) => ms == s.tables.mappings && ds == DevicesFor(ms, s.tables.devices)
      case ReadPolicies(seen) =>
        seen == RouteCache.Tables(s.tables.mappings, DevicesFor(s.tables.mappings, s.tables.devices), s.tables.policies)
  }

  lemma StepKeepsInv(s: State, a: Action)
    requires Inv(s) && Enabled(s, a)
    ensures Inv(Step(s, a))
  {
    if a.Publish? {
      FilteredBuild(s.tables);
    }
  }

  predicate Run(s: State, actions: seq<Action>, t: State)
    decreases |actions|
  {
    if actions == [] then t == s
    else Enabled(s, actions[0]) && Run(Step(s, actions[0]), actions[1..], t)
  }

  function Started(tables: Rows): State {
    State(tables, 0, false, Starting, None, false)
  }

  lemma {:induction false} RunKeepsInv(s: State, actions: seq<Action>, t: State)
    requires Inv(s) && Run(s, actions, t)
    ensures Inv(t)
    decreases |actions|
  {
    if actions != [] {
      StepKeepsInv(s, actions[0]);
      RunKeepsInv(Step(s, actions[0]), actions[1..], t);
    }
  }

  /** Quiescent freshness: runner idle, channel empty, no writer between its commit and its request, and the
      last reload succeeded: the snapshot is the one of the current tables, and so every lookup answers as
      the current tables say. */
  lemma QuiescentIsFresh(tables: Rows, actions: seq<Action>, t: State, host: string)
    requires Run(Started(tables), actions, t) && t.phase == Idle && Quiet(t) && t.lastOk
    ensures Fresh(t)
    ensures RouteCache.TablesOK(t.tables) ==>
              (RouteCache.Lookup(t.snapshot.value, host) == RouteCache.SlowPath(t.tables, host)
               <==> !RouteCache.BlankProtocolDenied(t.tables, host))
  {
    RunKeepsInv(Started(tables), actions, t);
    if RouteCache.TablesOK(t.tables) {
      RouteCache.CacheEqualsSlowPathIff(t.tables, host);
    }
  }

  /** No request is lost: a token is in the channel, or the runner that took it has not begun to read. */
  predicate Heard(s: State) {
    s.token || s.phase.Waiting? || s.phase.Draining?
  }

  /** After a request, reads that have begun count for nothing until a later reload: the request stays heard
      until a read of all tables begins. */
  lemma RequestStaysHeard(s: State, a: Action)
    requires Enabled(s, a) && Heard(s)
    ensures Heard(Step(s, a)) || a.QueryMappings?
    ensures Enabled(s, RequestReload) ==> Heard(Step(s, RequestReload))
  {
  }

  /** What the runner has to do before it is idle with an empty channel, if nobody else acts. */
  function Work(s: State): nat {
    (match s.phase
     case Starting => 4
     case Idle => 0
     case Waiting => 6
     case Draining => 5
     case ReadMappings(_) => 3
     case ReadDevices(_, _) => 2
     case ReadPolicies(_) => 1)
    + if s.token then 7 else 0
  }

  predicate RunnerAction(a: Action) {
    !a.Commit? && !a.RequestReload?
  }

  /** Left alone, the runner comes to rest: it can act while there is work, and each act leaves less. */
  lemma RunnerComesToRest(s: State, a: Action)
    requires Enabled(s, a) && RunnerAction(a)
    ensures Work(Step(s, a)) < Work(s) && Step(s, a).committed == s.committed && Step(s, a).tables == s.tables
  {
  }

  lemma RunnerCanAct(s: State)
    requires Work(s) > 0
    ensures Enabled(s, TakeToken) || Enabled(s, TimerFires) || Enabled(s, DrainToken) || Enabled(s, QueryMappings(true))
            || Enabled(s, QueryDevices(true)) || Enabled(s, QueryPolicies(true)) || Enabled(s, Publish)
  {
  }

  /** A reload that nothing disturbs publishes the routes of the tables as they are. */
  lemma UndisturbedReloadPublishes(s: State)
    requires s.phase.Starting? || (s.phase.Draining? && !s.token)
    ensures exists t :: Run(s, [QueryMappings(true), QueryDevices(true), QueryPolicies(true), Publish], t)
                        && t == s.(phase := Idle, snapshot := Some(RouteCache.Build(s.tables)), lastOk := true)
  {
    var read := [QueryMappings(true), QueryDevices(true), QueryPolicies(true), Publish];
    var s1 := Step(s, read[0]);
    var s2 := Step(s1, read[1]);
    var s3 := Step(s2, read[2]);
    var t := Step(s3, read[3]);
    FilteredBuild(s.tables);
    hide RouteCache.Build, DevicesFor;
    assert t == s.(phase := Idle, snapshot := Some(RouteCache.Build(s.tables)), lastOk := true);
    assert read[1..] == [QueryDevices(true), QueryPolicies(true), Publish];
    assert read[1..][1..] == [QueryPolicies(true), Publish];
    assert read[1..][1..][1..] == [Publish] && [Publish][1..] == [];
    assert Run(t, [], t) && Run(s3, [Publish], t);
    assert Run(s2, read[1..][1..], t) && Run(s1, read[1..], t) && Run(s, read, t);
  }

  /** A change that is committed while the runner is idle is what the snapshot says after its request. */
  lemma ChangeIsPublished(s: State, tables: Rows)
    requires s.phase.Idle? && Quiet(s)
    ensures exists s1, t ::
              && Run(s, [Commit(tables), RequestReload, TakeToken, TimerFires], s1)
              && Run(s1, [QueryMappings(true), QueryDevices(true), QueryPolicies(true), Publish], t)
              && t == State(tables, 0, false, Idle, Some(RouteCache.Build(tables)), true)
  {
    var ask := [Commit(tables), RequestReload, TakeToken, TimerFires];
    var a := Step(s, ask[0]);
    var b := Step(a, ask[1]);
    var c := Step(b, ask[2]);
    var d := Step(c, ask[3]);
    assert ask[1..] == [RequestReload, TakeToken, TimerFires];
    assert ask[1..][1..] == [TakeToken, TimerFires];
    assert ask[1..][1..][1..] == [TimerFires] && [TimerFires][1..] == [];
    assert Run(c, [TimerFires], d) && Run(b, ask[1..][1..], d) && Run(a, ask[1..], d) && Run(s, ask, d);
    UndisturbedReloadPublishes(d);
  }

  /** A query that fails ends the reload and leaves the snapshot that is there. */
  lemma FailedQueryKeepsSnapshot(s: State, a: Action)
    requires Enabled(s, a) && (a == QueryMappings(false) || a == QueryDevices(false) || a == QueryPolicies(false))
    ensures Step(s, a) == State(s.tables, s.committed, s.token, Idle, s.snapshot, false)
  {
  }
}
