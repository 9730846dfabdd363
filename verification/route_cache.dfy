/**
 The HTTP route cache: the snapshot that `RouteStore.Reload` builds, against the database queries
 (`findMapping`, then `IsAllowed`) that it stands in for. Tables are sequences of rows in key order.
 */
module RouteCache {
  import opened Text
  import opened Hosts

  const STATUS_ENABLED := 1
  const DEVICE_DISABLED := 4

  datatype Mapping = Mapping(guid: string, deviceGuid: string, publicHost: string, protocol: string, target: string,
                             status: int)

  datatype Device = Device(guid: string, groupGuid: string, deviceType: string, status: int)

  datatype Policy = Policy(guid: string, scope: string, targetID: string, allowSSH: bool, allowHTTP: bool,
                           allowTCP: bool, status: int)

  datatype Tables = Tables(mappings: seq<Mapping>, devices: seq<Device>, policies: seq<Policy>)

  datatype Route = Route(mapping: Mapping, device: Device, allowHTTP: bool)

  // ---------------------------------------------------------------- the slow path

  function FirstMapping(rows: seq<Mapping>, host: string): Option<Mapping> {
    if rows == [] then None
    else if rows[0].publicHost == host && rows[0].status == STATUS_ENABLED then Some(rows[0])
    else FirstMapping(rows[1..], host)
  }

  function FirstDevice(rows: seq<Device>, guid: string, enabledOnly: bool): Option<Device> {
    if rows == [] then None
    else if rows[0].guid == guid && (enabledOnly ==> rows[0].status != DEVICE_DISABLED) then Some(rows[0])
    else FirstDevice(rows[1..], guid, enabledOnly)
  }

  predicate HTTPProtocol(protocol: string) {
    protocol == "" || protocol == "http" || protocol == "https"
  }

  function FindMapping(t: Tables, host: string): Option<(Mapping, Device)> {
    match FirstMapping(t.mappings, GatewayHost(host))
    case None => None
    case Some(m) =>
      if !HTTPProtocol(m.protocol) then None
      else match FirstDevice(t.devices, m.deviceGuid, true)
        case None => None
        case Some(d) => Some((m, d))
  }

  /** policyDeviceContext.targets */
  function Targets(group: string, kind: string): seq<string> {
    var values := (if group == "" then [] else [group]) + (if kind == "" || kind == group then [] else [kind]);
    if values == [] then [""] else values
  }

  function DeviceTargets(devices: seq<Device>, deviceGuid: string): seq<string> {
    if TrimSpace(deviceGuid) == "" then Targets("", "")
    else match FirstDevice(devices, deviceGuid, false)
      case None => Targets("", "")
      case Some(d) => Targets(TrimSpace(d.groupGuid), TrimSpace(d.deviceType))
  }

  /** The WHERE clause of IsAllowed. */
  predicate Selected(p: Policy, deviceGuid: string, targets: seq<string>, mappingGuid: string) {
    p.status == STATUS_ENABLED &&
    (p.scope == "global"
     || (p.scope == "device" && p.targetID == deviceGuid)
     || (p.scope == "group" && p.targetID in targets)
     || (mappingGuid != "" && p.scope == "mapping" && p.targetID == mappingGuid))
  }

  predicate Allows(p: Policy, protocol: string) {
    match protocol
    case "ssh" => p.allowSSH
    case "http" => p.allowHTTP
    case "https" => p.allowHTTP
    case "tcp" => p.allowTCP
    case _ => true
  }

  predicate AllAllow(policies: seq<Policy>, deviceGuid: string, targets: seq<string>, mappingGuid: string,
                     protocol: string)
  {
    forall p | p in policies && Selected(p, deviceGuid, targets, mappingGuid) :: Allows(p, protocol)
  }

  /** AccessPolicyService.IsAllowed */
  predicate IsAllowed(t: Tables, rawDevice: string, rawMapping: string, rawProtocol: string) {
    var deviceGuid, mappingGuid, protocol := TrimSpace(rawDevice), TrimSpace(rawMapping), Lower(TrimSpace(rawProtocol));
    AllAllow(t.policies, deviceGuid, DeviceTargets(t.devices, deviceGuid), mappingGuid, protocol)
  }

  function SlowPath(t: Tables, host: string): Option<Route> {
    match FindMapping(t, host)
    case None => None
    case Some((m, d)) => Some(Route(m, d, IsAllowed(t, d.guid, m.guid, m.protocol)))
  }

  // ---------------------------------------------------------------- the snapshot

  /** routePolicyApplies */
  predicate Applies(p: Policy, d: Device, m: Mapping) {
    match Lower(TrimSpace(p.scope))
    case "global" => true
    case "device" => TrimSpace(p.targetID) == d.guid
    case "group" =>
      var target := TrimSpace(p.targetID);
      target != "" && (target == TrimSpace(d.groupGuid) || target == TrimSpace(d.deviceType))
    case "mapping" => TrimSpace(p.targetID) == m.guid
    case _ => false
  }

  /** routeAllowsHTTP over the enabled policies. */
  predicate RouteAllows(d: Device, m: Mapping, policies: seq<Policy>) {
    forall p | p in policies && p.status == STATUS_ENABLED && Applies(p, d, m) :: p.allowHTTP
  }

  predicate Routed(m: Mapping) {
    m.status == STATUS_ENABLED && HTTPProtocol(m.protocol)
  }

  function DeviceIndex(devices: seq<Device>, wanted: set<string>): map<string, Device> {
    if devices == [] then map[]
    else
      var d := devices[|devices| - 1];
      var index := DeviceIndex(devices[..|devices| - 1], wanted);
      if d.guid in wanted && d.status != DEVICE_DISABLED then index[d.guid := d] else index
  }

  function RoutesOf(mappings: seq<Mapping>, index: map<string, Device>, policies: seq<Policy>): map<string, Route> {
    if mappings == [] then map[]
    else
      var m := mappings[|mappings| - 1];
      var routes := RoutesOf(mappings[..|mappings| - 1], index, policies);
      var host := GatewayHost(m.publicHost);
      if Routed(m) && m.deviceGuid in index && host != "" then
        routes[host := Route(m, index[m.deviceGuid], RouteAllows(index[m.deviceGuid], m, policies))]
      else routes
  }

  function WantedDevices(mappings: seq<Mapping>): set<string> {
    set m | m in mappings && Routed(m) :: m.deviceGuid
  }

  function Build(t: Tables): map<string, Route> {
    RoutesOf(t.mappings, DeviceIndex(t.devices, WantedDevices(t.mappings)), t.policies)
  }

  function Lookup(routes: map<string, Route>, host: string): Option<Route> {
    if GatewayHost(host) in routes then Some(routes[GatewayHost(host)]) else None
  }

  // ---------------------------------------------------------------- what the writers see to

  predicate MappingOK(m: Mapping) {
    m.status == STATUS_ENABLED ==> GatewayHost(m.publicHost) == m.publicHost && m.publicHost != "" && Trimmed(m.guid)
  }

  predicate PolicyOK(p: Policy) {
    p.status == STATUS_ENABLED ==>
      Trimmed(p.scope) && Lower(p.scope) == p.scope && Trimmed(p.targetID) && (p.scope != "global" ==> p.targetID != "")
  }

  predicate UniqueHosts(rows: seq<Mapping>) {
    forall i, j | 0 <= i < j < |rows| :: rows[i].publicHost != rows[j].publicHost
  }

  predicate UniqueDevices(rows: seq<Device>) {
    forall i, j | 0 <= i < j < |rows| :: rows[i].guid != rows[j].guid
  }

  predicate TablesOK(t: Tables) {
    && (forall m | m in t.mappings :: MappingOK(m)) && UniqueHosts(t.mappings)
    && (forall d | d in t.devices :: Trimmed(d.guid) && d.guid != "") && UniqueDevices(t.devices)
    && (forall p | p in t.policies :: PolicyOK(p))
  }

  // ---------------------------------------------------------------- agreement

  lemma {:induction false} FirstMappingFinds(rows: seq<Mapping>, host: string)
    ensures match FirstMapping(rows, host)
            case Some(m) => m in rows && m.publicHost == host && m.status == STATUS_ENABLED
            case None => forall m | m in rows && m.status == STATUS_ENABLED :: m.publicHost != host
  {
    if rows != [] && !(rows[0].publicHost == host && rows[0].status == STATUS_ENABLED) {
      FirstMappingFinds(rows[1..], host);
      assert rows == [rows[0]] + rows[1..];
    }
  }

  lemma {:induction false} FirstDeviceFinds(rows: seq<Device>, guid: string, enabledOnly: bool)
    ensures match FirstDevice(rows, guid, enabledOnly)
            case Some(d) => d in rows && d.guid == guid && (enabledOnly ==> d.status != DEVICE_DISABLED)
            case None => forall d | d in rows && d.guid == guid :: enabledOnly && d.status == DEVICE_DISABLED
  {
    if rows != [] && !(rows[0].guid == guid && (enabledOnly ==> rows[0].status != DEVICE_DISABLED)) {
      FirstDeviceFinds(rows[1..], guid, enabledOnly);
      assert rows == [rows[0]] + rows[1..];
    }
  }

  lemma {:induction false} IndexFinds(rows: seq<Device>, wanted: set<string>, guid: string)
    requires UniqueDevices(rows)
    ensures var index := DeviceIndex(rows, wanted);
            && (guid in index ==>
                  guid in wanted && index[guid] in rows && index[guid].guid == guid
                  && index[guid].status != DEVICE_DISABLED)
            && (guid !in index && guid in wanted ==>
                  forall d | d in rows && d.guid == guid :: d.status == DEVICE_DISABLED)
  {
    if rows != [] {
      var front, d := rows[..|rows| - 1], rows[|rows| - 1];
      IndexFinds(front, wanted, guid);
      assert rows == front + [d];
    }
  }

  lemma SameDevice(rows: seq<Device>, d: Device, e: Device)
    requires UniqueDevices(rows) && d in rows && e in rows && d.guid == e.guid
    ensures d == e
  {
  }

  lemma SameMapping(rows: seq<Mapping>, m: Mapping, n: Mapping)
    requires UniqueHosts(rows) && m in rows && n in rows && m.publicHost == n.publicHost
    ensures m == n
  {
  }

  /** The index gives the device that the query would have found first. */
  lemma IndexIsQuery(rows: seq<Device>, wanted: set<string>, guid: string)
    requires UniqueDevices(rows) && guid in wanted
    ensures var index := DeviceIndex(rows, wanted);
            FirstDevice(rows, guid, true) == if guid in index then Some(index[guid]) else None
  {
    IndexFinds(rows, wanted, guid);
    FirstDeviceFinds(rows, guid, true);
    var index := DeviceIndex(rows, wanted);
    if guid in index && FirstDevice(rows, guid, true).Some? {
      SameDevice(rows, index[guid], FirstDevice(rows, guid, true).value);
    }
  }

  /** A host's route comes from the one enabled mapping that has it, whatever the order of the rows. */
  lemma {:induction false} RouteComesFromMapping(rows: seq<Mapping>, index: map<string, Device>,
                                                 policies: seq<Policy>, host: string)
    requires (forall m | m in rows :: MappingOK(m)) && UniqueHosts(rows)
    ensures var routes := RoutesOf(rows, index, policies);
            && (host in routes ==>
                  var r := routes[host];
                  r.mapping in rows && Routed(r.mapping) && r.mapping.publicHost == host
                  && r.mapping.deviceGuid in index && r.device == index[r.mapping.deviceGuid]
                  && r.allowHTTP == RouteAllows(r.device, r.mapping, policies))
            && (forall m | m in rows && Routed(m) && m.publicHost == host && m.deviceGuid in index :: host in routes)
  {
    if rows != [] {
      var front, m := rows[..|rows| - 1], rows[|rows| - 1];
      assert rows == front + [m];
      RouteComesFromMapping(front, index, policies, host);
    }
  }

  lemma LookupFinds(t: Tables, host: string)
    requires TablesOK(t)
    ensures var key := GatewayHost(host);
            var index := DeviceIndex(t.devices, WantedDevices(t.mappings));
            Lookup(Build(t), host) ==
            match FirstMapping(t.mappings, key)
            case None => None
            case Some(m) =>
              if HTTPProtocol(m.protocol) && m.deviceGuid in index then
                Some(Route(m, index[m.deviceGuid], RouteAllows(index[m.deviceGuid], m, t.policies)))
              else None
  {
    var key := GatewayHost(host);
    var index := DeviceIndex(t.devices, WantedDevices(t.mappings));
    RouteComesFromMapping(t.mappings, index, t.policies, key);
    FirstMappingFinds(t.mappings, key);
    if FirstMapping(t.mappings, key).Some? && key in Build(t) {
      SameMapping(t.mappings, FirstMapping(t.mappings, key).value, Build(t)[key].mapping);
    }
  }

  /** The same policies are consulted on both paths. */
  lemma SelectedIffApplies(t: Tables, p: Policy, d: Device, m: Mapping)
    requires TablesOK(t) && p in t.policies && d in t.devices && Trimmed(m.guid)
    ensures Selected(p, TrimSpace(d.guid), DeviceTargets(t.devices, TrimSpace(d.guid)), TrimSpace(m.guid))
            <==> p.status == STATUS_ENABLED && Applies(p, d, m)
  {
    TrimSpaceTrims(d.guid);
    TrimSpaceTrims(m.guid);
    FirstDeviceFinds(t.devices, d.guid, false);
    var first := FirstDevice(t.devices, d.guid, false);
    assert d in t.devices && d.guid == d.guid && first.Some?;
    SameDevice(t.devices, first.value, d);
    if p.status == STATUS_ENABLED {
      assert PolicyOK(p);
      TrimSpaceTrims(p.scope);
      TrimSpaceTrims(p.targetID);
    }
  }

  /** The cached route is for a mapping without a protocol, and a policy denies HTTP. The slow path consults
      no permission for such a mapping. Rows that Save has written have a protocol. */
  predicate BlankProtocolDenied(t: Tables, host: string) {
    match FindMapping(t, host)
    case None => false
    case Some((m, d)) => m.protocol == "" && !RouteAllows(d, m, t.policies)
  }

  lemma PlainProtocol(protocol: string)
    requires HTTPProtocol(protocol)
    ensures Lower(TrimSpace(protocol)) == protocol
    ensures protocol == "" || protocol == "http" || protocol == "https"
  {
  }

  lemma DecisionsAgree(t: Tables, m: Mapping, d: Device)
    requires TablesOK(t) && d in t.devices && Trimmed(m.guid) && HTTPProtocol(m.protocol)
    ensures IsAllowed(t, d.guid, m.guid, m.protocol) == (m.protocol == "" || RouteAllows(d, m, t.policies))
  {
    PlainProtocol(m.protocol);
    hide Selected, Applies, HTTPProtocol;
    var targets := DeviceTargets(t.devices, TrimSpace(d.guid));
    forall p | p in t.policies
      ensures Selected(p, TrimSpace(d.guid), targets, TrimSpace(m.guid))
              <==> p.status == STATUS_ENABLED && Applies(p, d, m)
    {
      SelectedIffApplies(t, p, d, m);
    }
  }

  /** For tables as the writers leave them and every host, the cache answers as the database queries do,
      except for a denied mapping without a protocol. */
  lemma CacheEqualsSlowPathIff(t: Tables, host: string)
    requires TablesOK(t)
    ensures Lookup(Build(t), host) == SlowPath(t, host) <==> !BlankProtocolDenied(t, host)
  {
    LookupFinds(t, host);
    FirstMappingFinds(t.mappings, GatewayHost(host));
    match FirstMapping(t.mappings, GatewayHost(host))
    case None =>
    case Some(m) =>
      if HTTPProtocol(m.protocol) {
        assert m.deviceGuid in WantedDevices(t.mappings);
        IndexIsQuery(t.devices, WantedDevices(t.mappings), m.deviceGuid);
        FirstDeviceFinds(t.devices, m.deviceGuid, true);
        var d := FirstDevice(t.devices, m.deviceGuid, true);
        if d.Some? {
          assert MappingOK(m);
          DecisionsAgree(t, m, d.value);
        }
      }
  }

  const Witness := Tables([Mapping("m", "d", "h", "", "127.0.0.1:80", 1)], [Device("d", "", "", 2)],
                          [Policy("p", "global", "", true, false, true, 1)])

  /** A row that Save has not written: the cache denies what the queries allow. */
  lemma BlankProtocolDiffers()
    ensures TablesOK(Witness) && Lookup(Build(Witness), "h") != SlowPath(Witness, "h")
  {
    assert Lower("h") == "h" && Lower("global") == "global";
    assert TrimSpace("h") == "h" && TrimSpace("global") == "global";
    assert GatewayHost("h") == "h" by {
      assert SplitHost("h").None?;
      assert TrimBracketsRight(TrimBracketsLeft("h")) == "h";
    }
    var m, d := Witness.mappings[0], Witness.devices[0];
    assert FindMapping(Witness, "h") == Some((m, d));
    assert Witness.policies[0] in Witness.policies && Applies(Witness.policies[0], d, m);
    assert BlankProtocolDenied(Witness, "h");
    CacheEqualsSlowPathIff(Witness, "h");
  }

  /** The order of the rows does not matter. */
  lemma RowOrderDoesNotMatter(t: Tables, u: Tables, host: string)
    requires TablesOK(t) && TablesOK(u)
    requires (forall m :: m in t.mappings <==> m in u.mappings) && (forall d :: d in t.devices <==> d in u.devices)
    requires forall p :: p in t.policies <==> p in u.policies
    ensures Lookup(Build(t), host) == Lookup(Build(u), host)
  {
    LookupFinds(t, host);
    LookupFinds(u, host);
    var key := GatewayHost(host);
    FirstMappingFinds(t.mappings, key);
    FirstMappingFinds(u.mappings, key);
    if FirstMapping(t.mappings, key).Some? {
      var m := FirstMapping(t.mappings, key).value;
      SameMapping(t.mappings, m, FirstMapping(u.mappings, key).value);
      if Routed(m) {
        assert m.deviceGuid in WantedDevices(t.mappings) && m.deviceGuid in WantedDevices(u.mappings);
        IndexIsQuery(t.devices, WantedDevices(t.mappings), m.deviceGuid);
        IndexIsQuery(u.devices, WantedDevices(u.mappings), m.deviceGuid);
        FirstDeviceFinds(t.devices, m.deviceGuid, true);
        FirstDeviceFinds(u.devices, m.deviceGuid, true);
        var d, e := FirstDevice(t.devices, m.deviceGuid, true), FirstDevice(u.devices, m.deviceGuid, true);
        if d.Some? && e.Some? {
          SameDevice(t.devices, d.value, e.value);
        }
      }
    }
  }

  // ---------------------------------------------------------------- what a request is answered

  /** The policies that the documentation counts for a route: the global ones, those of its device, of the
      device's group or type, and of the mapping. */
  predicate Concerns(p: Policy, d: Device, m: Mapping) {
    p.status == 1 &&
    (p.scope == "global"
     || (p.scope == "device" && p.targetID == d.guid)
     || (p.scope == "group" && (p.targetID == TrimSpace(d.groupGuid) || p.targetID == TrimSpace(d.deviceType)))
     || (p.scope == "mapping" && p.targetID == m.guid))
  }

  /** Tables whose enabled mappings are stored under names. */
  predicate NamedTables(t: Tables) {
    && (forall m | m in t.mappings && m.status == 1 :: IsName(m.publicHost) && Trimmed(m.guid))
    && UniqueHosts(t.mappings) && UniqueDevices(t.devices)
    && (forall d | d in t.devices :: Trimmed(d.guid) && d.guid != "")
    && (forall p | p in t.policies :: PolicyOK(p))
  }

  /** m is enabled and forwards HTTP to d, which is not disabled. */
  predicate Serves(t: Tables, m: Mapping, d: Device) {
    && m in t.mappings && m.status == 1 && (m.protocol == "" || m.protocol == "http" || m.protocol == "https")
    && d in t.devices && d.guid == m.deviceGuid && d.status != 4
  }

  lemma NamedTablesAreOK(t: Tables)
    requires NamedTables(t)
    ensures TablesOK(t)
  {
    hide GatewayHost, PolicyOK;
    forall m | m in t.mappings && m.status == STATUS_ENABLED ensures GatewayHost(m.publicHost) == m.publicHost {
      NameIsItsHost(m.publicHost);
    }
  }

  lemma AppliesIffConcerns(p: Policy, d: Device, m: Mapping)
    requires PolicyOK(p) && p.status == STATUS_ENABLED
    ensures Applies(p, d, m) <==> Concerns(p, d, m)
  {
    TrimSpaceTrims(p.scope);
    TrimSpaceTrims(p.targetID);
  }

  lemma RouteAllowsIff(t: Tables, d: Device, m: Mapping)
    requires forall p | p in t.policies :: PolicyOK(p)
    ensures RouteAllows(d, m, t.policies) <==> forall p | p in t.policies && Concerns(p, d, m) :: p.allowHTTP
  {
    hide Applies, PolicyOK;
    forall p | p in t.policies && p.status == STATUS_ENABLED ensures Applies(p, d, m) <==> Concerns(p, d, m) {
      AppliesIffConcerns(p, d, m);
    }
  }

  lemma LookupServesIff(t: Tables, host: string, m: Mapping, d: Device)
    requires TablesOK(t)
    ensures var r := Lookup(Build(t), host);
            (r.Some? && r.value.mapping == m && r.value.device == d)
            <==> Serves(t, m, d) && m.publicHost == GatewayHost(host)
    ensures var r := Lookup(Build(t), host);
            r.Some? ==> r.value.allowHTTP == RouteAllows(r.value.device, r.value.mapping, t.policies)
  {
    hide GatewayHost, RouteAllows, MappingOK, PolicyOK;
    var key := GatewayHost(host);
    var index := DeviceIndex(t.devices, WantedDevices(t.mappings));
    LookupFinds(t, host);
    FirstMappingFinds(t.mappings, key);
    IndexFinds(t.devices, WantedDevices(t.mappings), m.deviceGuid);
    var first := FirstMapping(t.mappings, key);
    if Serves(t, m, d) && m.publicHost == key {
      SameMapping(t.mappings, m, first.value);
      assert Routed(m) && m.deviceGuid in WantedDevices(t.mappings);
      SameDevice(t.devices, d, index[m.deviceGuid]);
    } else if Lookup(Build(t), host).Some? && first.value == m {
      assert index[m.deviceGuid] in t.devices;
    }
  }

  /** A request for a name, in any case, with any port or none, gets a route exactly if an enabled mapping is
      stored under that name and its device is there and not disabled. The route allows HTTP exactly if no
      policy that concerns it denies it. */
  lemma RequestFindsRoute(t: Tables, raw: string, name: string, m: Mapping, d: Device, allowed: bool)
    requires NamedTables(t) && RequestFor(raw, name)
    ensures Lookup(Build(t), raw) == Some(Route(m, d, allowed))
            <==> Serves(t, m, d) && m.publicHost == name
                 && (allowed <==> forall p | p in t.policies && Concerns(p, d, m) :: p.allowHTTP)
  {
    hide GatewayHost, Lookup, Build, RouteAllows, RequestFor;
    NamedTablesAreOK(t);
    GatewayFindsName(raw, name);
    LookupServesIff(t, raw, m, d);
    RouteAllowsIff(t, d, m);
  }

  // ---------------------------------------------------------------- the writers

  datatype MappingRequest = MappingRequest(guid: string, deviceGuid: string, publicHost: string, targetHost: string,
                                           targetPort: int, protocol: string, status: int)

  /** normalizeMappingRequest */
  function NormalizeMapping(req: MappingRequest): MappingRequest {
    MappingRequest(TrimSpace(req.guid), TrimSpace(req.deviceGuid), StoredHost(req.publicHost),
                   if TrimSpace(req.targetHost) == "" then "127.0.0.1" else TrimSpace(req.targetHost), req.targetPort,
                   if TrimSpace(req.protocol) == "" then "http" else TrimSpace(req.protocol),
                   if req.status == 0 then STATUS_ENABLED else req.status)
  }

  function IndexOfGuid(rows: seq<Mapping>, guid: string): (r: Option<nat>)
    ensures r.Some? ==> r.value < |rows| && rows[r.value].guid == guid
    ensures r.None? ==> forall m | m in rows :: m.guid != guid
  {
    if rows == [] then None
    else if rows[0].guid == guid then Some(0)
    else match IndexOfGuid(rows[1..], guid)
      case None => None
      case Some(i) => Some(i + 1)
  }

  /** ensurePublicHostAvailableOnDB */
  predicate HostAvailable(rows: seq<Mapping>, host: string, currentGuid: string) {
    if rows == [] then true
    else if rows[0].publicHost == host then rows[0].guid == currentGuid
    else HostAvailable(rows[1..], host, currentGuid)
  }

  predicate DeviceExists(devices: seq<Device>, guid: string) {
    exists d :: d in devices && d.guid == guid && d.status != DEVICE_DISABLED
  }

  /** MappingService.Save; None is an error. A new row without a guid gets `newGuid`. */
  function SaveMapping(t: Tables, raw: MappingRequest, newGuid: string): Option<Tables> {
    var req := NormalizeMapping(raw);
    if req.deviceGuid == "" || req.publicHost == "" || req.targetPort <= 0 then None
    else if !DeviceExists(t.devices, req.deviceGuid) || !HostAvailable(t.mappings, req.publicHost, req.guid) then None
    else
      var guid := if req.guid != "" then req.guid else newGuid;
      var row := Mapping(guid, req.deviceGuid, req.publicHost, req.protocol, req.targetHost, req.status);
      match IndexOfGuid(t.mappings, req.guid)
      case Some(i) => Some(t.(mappings := t.mappings[i := row.(guid := req.guid)]))
      case None => Some(t.(mappings := t.mappings + [row]))
  }

  lemma {:induction false} AvailableMeansMine(rows: seq<Mapping>, host: string, guid: string, i: nat)
    requires UniqueHosts(rows) && HostAvailable(rows, host, guid) && i < |rows| && rows[i].publicHost == host
    ensures rows[i].guid == guid
  {
    if i > 0 {
      assert rows[0].publicHost != rows[i].publicHost;
      AvailableMeansMine(rows[1..], host, guid, i - 1);
    }
  }

  predicate UniqueGuids(rows: seq<Mapping>) {
    forall i, j | 0 <= i < j < |rows| :: rows[i].guid != rows[j].guid
  }

  lemma RowReplaced(rows: seq<Mapping>, i: nat, row: Mapping)
    requires i < |rows| && UniqueGuids(rows) && UniqueHosts(rows) && rows[i].guid == row.guid
    requires HostAvailable(rows, row.publicHost, row.guid)
    ensures UniqueHosts(rows[i := row]) && UniqueGuids(rows[i := row])
    ensures forall m | m in rows[i := row] :: m == row || m in rows
  {
    forall j | 0 <= j < |rows| && j != i ensures rows[j].publicHost != row.publicHost {
      if rows[j].publicHost == row.publicHost {
        AvailableMeansMine(rows, row.publicHost, row.guid, j);
      }
    }
  }

  lemma RowAppended(rows: seq<Mapping>, row: Mapping, guid: string)
    requires UniqueGuids(rows) && UniqueHosts(rows) && HostAvailable(rows, row.publicHost, guid)
    requires forall m | m in rows :: m.guid != guid && m.guid != row.guid
    ensures UniqueHosts(rows + [row]) && UniqueGuids(rows + [row])
    ensures forall m | m in rows + [row] :: m == row || m in rows
  {
    forall j | 0 <= j < |rows| ensures rows[j].publicHost != row.publicHost && rows[j].guid != row.guid {
      assert rows[j] in rows;
      if rows[j].publicHost == row.publicHost {
        AvailableMeansMine(rows, row.publicHost, guid, j);
      }
    }
  }

  /** The row that Save writes. */
  function SavedRow(raw: MappingRequest, newGuid: string): Mapping {
    var req := NormalizeMapping(raw);
    Mapping(if req.guid != "" then req.guid else newGuid, req.deviceGuid, req.publicHost, req.protocol, req.targetHost,
            req.status)
  }

  lemma SavedRowIsOKIff(raw: MappingRequest, newGuid: string)
    requires Trimmed(newGuid) && StoredHost(raw.publicHost) != ""
    ensures var host := StoredHost(raw.publicHost);
            MappingOK(SavedRow(raw, newGuid))
            <==> NormalizeMapping(raw).status != STATUS_ENABLED || (Trimmed(host) && !Bracketed(host))
    ensures SavedRow(raw, newGuid).protocol != ""
  {
    StoredHostIsFixedPointIff(raw.publicHost);
    TrimSpaceTrims(raw.guid);
  }

  lemma SaveWritesRow(t: Tables, raw: MappingRequest, newGuid: string)
    requires UniqueHosts(t.mappings) && UniqueGuids(t.mappings)
             && (forall m | m in t.mappings :: m.guid != "" && m.guid != newGuid)
    requires newGuid != "" && SaveMapping(t, raw, newGuid).Some?
    ensures var u := SaveMapping(t, raw, newGuid).value;
            && UniqueHosts(u.mappings) && UniqueGuids(u.mappings) && u.devices == t.devices && u.policies == t.policies
            && SavedRow(raw, newGuid) in u.mappings
            && (forall m | m in u.mappings :: m == SavedRow(raw, newGuid) || m in t.mappings)
            && forall m | m in t.mappings && m.guid != SavedRow(raw, newGuid).guid :: m in u.mappings
  {
    var req := NormalizeMapping(raw);
    var u := SaveMapping(t, raw, newGuid).value;
    var row := SavedRow(raw, newGuid);
    match IndexOfGuid(t.mappings, req.guid)
    case Some(i) =>
      assert t.mappings[i] in t.mappings;
      RowReplaced(t.mappings, i, row);
      assert u.mappings[i] == row;
      assert forall j | 0 <= j < |t.mappings| && j != i :: u.mappings[j] == t.mappings[j];
    case None =>
      RowAppended(t.mappings, row, req.guid);
      assert u.mappings[|t.mappings|] == row;
  }

  /** A successful Save keeps hosts and guids unique, and keeps the tables fit for the cache exactly if the
      mapping is not enabled or its stored host is one that a request for it is looked up under. */
  lemma SaveMappingKeepsTables(t: Tables, raw: MappingRequest, newGuid: string)
    requires TablesOK(t) && UniqueGuids(t.mappings) && (forall m | m in t.mappings :: m.guid != "" && m.guid != newGuid)
    requires Trimmed(newGuid) && newGuid != "" && SaveMapping(t, raw, newGuid).Some?
    ensures var u := SaveMapping(t, raw, newGuid).value;
            var host := StoredHost(raw.publicHost);
            UniqueGuids(u.mappings)
            && (TablesOK(u) <==> NormalizeMapping(raw).status != STATUS_ENABLED || (Trimmed(host) && !Bracketed(host)))
  {
    var u := SaveMapping(t, raw, newGuid).value;
    SaveWritesRow(t, raw, newGuid);
    SavedRowIsOKIff(raw, newGuid);
    hide MappingOK;
    var row := SavedRow(raw, newGuid);
    assert (forall m | m in u.mappings :: MappingOK(m)) <==> MappingOK(row);
  }

  lemma {:induction false} AvailableIff(rows: seq<Mapping>, host: string, guid: string)
    requires UniqueHosts(rows)
    ensures HostAvailable(rows, host, guid) <==> forall m | m in rows && m.publicHost == host :: m.guid == guid
  {
    if rows != [] {
      AvailableIff(rows[1..], host, guid);
      assert rows == [rows[0]] + rows[1..];
    }
  }

  /** A Save succeeds exactly if device, host and port are given, the device is there and not disabled, and no
      other mapping has the host. */
  lemma SaveSucceedsIff(t: Tables, raw: MappingRequest, newGuid: string)
    requires UniqueHosts(t.mappings)
    ensures SaveMapping(t, raw, newGuid).Some?
            <==> TrimSpace(raw.deviceGuid) != "" && StoredHost(raw.publicHost) != "" && raw.targetPort > 0
                 && (exists d :: d in t.devices && d.guid == TrimSpace(raw.deviceGuid) && d.status != 4)
                 && forall m | m in t.mappings && m.publicHost == StoredHost(raw.publicHost) ::
                      m.guid == TrimSpace(raw.guid)
  {
    hide TrimSpace, StoredHost;
    AvailableIff(t.mappings, StoredHost(raw.publicHost), TrimSpace(raw.guid));
  }

  /** The row that a request asks for, said column by column. */
  predicate AskedFor(row: Mapping, raw: MappingRequest, newGuid: string, name: string) {
    && row.publicHost == name && row.deviceGuid == TrimSpace(raw.deviceGuid)
    && row.guid == (if TrimSpace(raw.guid) == "" then newGuid else TrimSpace(raw.guid))
    && row.protocol == (if TrimSpace(raw.protocol) == "" then "http" else TrimSpace(raw.protocol))
    && row.target == (if TrimSpace(raw.targetHost) == "" then "127.0.0.1" else TrimSpace(raw.targetHost))
    && row.status == (if raw.status == 0 then 1 else raw.status)
  }

  lemma SavedNameKeepsTables(t: Tables, raw: MappingRequest, newGuid: string, name: string)
    requires NamedTables(t) && UniqueGuids(t.mappings)
             && (forall m | m in t.mappings :: m.guid != "" && m.guid != newGuid)
    requires Trimmed(newGuid) && newGuid != "" && EntryFor(raw.publicHost, name)
    requires SaveMapping(t, raw, newGuid).Some?
    ensures var u := SaveMapping(t, raw, newGuid).value;
            NamedTables(u) && AskedFor(SavedRow(raw, newGuid), raw, newGuid, name)
  {
    hide TrimSpace, PolicyOK, GatewayHost;
    SaveWritesRow(t, raw, newGuid);
    StoredUnderName(raw.publicHost, name);
    TrimSpaceTrims(raw.guid);
  }

  /** A mapping saved for a name is served under it: a request for the name, however it is written, gets a
      route to the mapping's device once the snapshot is built again. */
  lemma SavedMappingIsServed(t: Tables, raw: MappingRequest, newGuid: string, name: string, request: string, d: Device)
    requires NamedTables(t) && UniqueGuids(t.mappings)
             && (forall m | m in t.mappings :: m.guid != "" && m.guid != newGuid)
    requires Trimmed(newGuid) && newGuid != "" && EntryFor(raw.publicHost, name) && RequestFor(request, name)
    requires SaveMapping(t, raw, newGuid).Some? && (raw.status == 0 || raw.status == 1)
    requires TrimSpace(raw.protocol) in ["", "http", "https"]
    requires d in t.devices && d.guid == TrimSpace(raw.deviceGuid) && d.status != 4
    ensures var r := Lookup(Build(SaveMapping(t, raw, newGuid).value), request);
            r.Some? && r.value.device == d && AskedFor(r.value.mapping, raw, newGuid, name)
  {
    hide TrimSpace, PolicyOK, GatewayHost, Lookup, Build, RequestFor, EntryFor;
    SaveWritesRow(t, raw, newGuid);
    SavedNameKeepsTables(t, raw, newGuid, name);
    var u, row := SaveMapping(t, raw, newGuid).value, SavedRow(raw, newGuid);
    var allowed := forall p | p in u.policies && Concerns(p, d, row) :: p.allowHTTP;
    RequestFindsRoute(u, request, name, row, d, allowed);
  }

  datatype PolicyRequest = PolicyRequest(guid: string, name: string, scope: string, targetID: string,
                                         allowSSH: bool, allowHTTP: bool, allowTCP: bool, status: int)

  /** normalizePolicyRequest, and the checks of AccessPolicyService.Save */
  function PolicyRow(raw: PolicyRequest, guid: string): Option<Policy> {
    var scope := if Lower(TrimSpace(raw.scope)) == "" then "device" else Lower(TrimSpace(raw.scope));
    var targetID := TrimSpace(raw.targetID);
    if TrimSpace(raw.name) == "" || (scope != "global" && targetID == "") then None
    else Some(Policy(guid, scope, targetID, raw.allowSSH, raw.allowHTTP, raw.allowTCP,
                     if raw.status == 0 then STATUS_ENABLED else raw.status))
  }

  lemma LowerKeepsTrimmed(s: string)
    requires Trimmed(s)
    ensures Trimmed(Lower(s))
  {
  }

  /** A policy can be saved exactly with a name and, unless it is global, a target; it then has the form that
      both paths read alike. */
  lemma SavedPolicyIsOK(raw: PolicyRequest, guid: string)
    ensures PolicyRow(raw, guid).Some? ==> PolicyOK(PolicyRow(raw, guid).value)
    ensures PolicyRow(raw, guid).Some?
            <==> TrimSpace(raw.name) != "" && (Lower(TrimSpace(raw.scope)) == "global" || TrimSpace(raw.targetID) != "")
  {
    TrimSpaceTrims(raw.scope);
    TrimSpaceTrims(raw.targetID);
    LowerKeepsTrimmed(TrimSpace(raw.scope));
    LowerFacts(TrimSpace(raw.scope));
    assert Lower("device") == "device";
  }

  /** The routes that a policy request is about. */
  predicate AskedAbout(raw: PolicyRequest, d: Device, m: Mapping) {
    var scope, target := Lower(TrimSpace(raw.scope)), TrimSpace(raw.targetID);
    (raw.status == 0 || raw.status == 1) &&
    (scope == "global"
     || ((scope == "" || scope == "device") && target == d.guid)
     || (scope == "group" && (target == TrimSpace(d.groupGuid) || target == TrimSpace(d.deviceType)))
     || (scope == "mapping" && target == m.guid))
  }

  lemma PolicyRowConcerns(raw: PolicyRequest, guid: string, d: Device, m: Mapping)
    requires PolicyRow(raw, guid).Some?
    ensures var row := PolicyRow(raw, guid).value;
            row.allowHTTP == raw.allowHTTP && (Concerns(row, d, m) <==> AskedAbout(raw, d, m))
  {
    hide TrimSpace, Lower;
  }

  /** A saved policy takes part in the decision on exactly the routes it is about: they are then allowed if they
      were before and the policy allows HTTP, and all others as before. */
  lemma SavedPolicyDecides(t: Tables, raw: PolicyRequest, guid: string, request: string, name: string,
                           m: Mapping, d: Device)
    requires NamedTables(t) && RequestFor(request, name) && Serves(t, m, d) && m.publicHost == name
    requires PolicyRow(raw, guid).Some?
    ensures var before := Lookup(Build(t), request);
            var after := Lookup(Build(t.(policies := t.policies + [PolicyRow(raw, guid).value])), request);
            && before.Some? && after.Some? && after.value.mapping == m && after.value.device == d
            && (after.value.allowHTTP <==> before.value.allowHTTP && (AskedAbout(raw, d, m) ==> raw.allowHTTP))
  {
    hide PolicyRow, PolicyOK, IsName, RequestFor, Lookup, Build, Concerns, AskedAbout;
    var row := PolicyRow(raw, guid).value;
    var u := t.(policies := t.policies + [row]);
    SavedPolicyIsOK(raw, guid);
    PolicyRowConcerns(raw, guid, d, m);
    var was := forall p | p in t.policies && Concerns(p, d, m) :: p.allowHTTP;
    var now := forall p | p in u.policies && Concerns(p, d, m) :: p.allowHTTP;
    assert row in u.policies;
    RequestFindsRoute(t, request, name, m, d, was);
    RequestFindsRoute(u, request, name, m, d, now);
  }

  // ---------------------------------------------------------------- the store

  lemma IndexExtends(devices: seq<Device>, i: nat, wanted: set<string>)
    requires i < |devices|
    ensures DeviceIndex(devices[..i + 1], wanted)
            == if devices[i].guid in wanted && devices[i].status != DEVICE_DISABLED
               then DeviceIndex(devices[..i], wanted)[devices[i].guid := devices[i]]
               else DeviceIndex(devices[..i], wanted)
  {
    assert devices[..i + 1][..i] == devices[..i];
  }

  lemma RoutesExtend(mappings: seq<Mapping>, i: nat, index: map<string, Device>, policies: seq<Policy>)
    requires i < |mappings|
    ensures var m := mappings[i];
            var host := GatewayHost(m.publicHost);
            var before := RoutesOf(mappings[..i], index, policies);
            RoutesOf(mappings[..i + 1], index, policies)
            == if Routed(m) && m.deviceGuid in index && host != "" then
                 before[host := Route(m, index[m.deviceGuid], RouteAllows(index[m.deviceGuid], m, policies))]
               else before
  {
    assert mappings[..i + 1][..i] == mappings[..i];
  }

  class RouteStore {
    var current: Option<map<string, Route>>

    constructor ()
      ensures current.None?
    {
      current := None;
    }

    method Find(host: string) returns (route: Option<Route>)
      ensures route == if current.Some? then Lookup(current.value, host) else None
    {
      if current.None? {
        return None;
      }
      return Lookup(current.value, host);
    }

    method RouteAllowsHTTP(device: Device, mapping: Mapping, policies: seq<Policy>) returns (allowed: bool)
      ensures allowed == RouteAllows(device, mapping, policies)
    {
      allowed := true;
      for i := 0 to |policies|
        invariant allowed == RouteAllows(device, mapping, policies[..i])
      {
        assert policies[..i + 1] == policies[..i] + [policies[i]];
        if policies[i].status != STATUS_ENABLED || !Applies(policies[i], device, mapping) {
          continue;
        }
        allowed := allowed && policies[i].allowHTTP;
      }
      assert policies[..|policies|] == policies;
    }

    /** Reload. Each of its three queries reads its table, or fails and leaves the snapshot as it is. */
    method Reload(t: Tables, mappingsFail: bool, devicesFail: bool, policiesFail: bool) returns (ok: bool)
      modifies this
      ensures ok ==> current == Some(Build(t))
      ensures !ok ==> current == old(current)
      ensures !ok ==> mappingsFail || devicesFail || policiesFail
    {
      if mappingsFail {
        return false;
      }
      var wanted: set<string> := {};
      for i := 0 to |t.mappings|
        invariant wanted == WantedDevices(t.mappings[..i]) && current == old(current)
      {
        assert t.mappings[..i + 1] == t.mappings[..i] + [t.mappings[i]];
        if !Routed(t.mappings[i]) {
          continue;
        }
        wanted := wanted + {t.mappings[i].deviceGuid};
      }
      assert t.mappings[..|t.mappings|] == t.mappings;
      var deviceByID: map<string, Device> := map[];
      if wanted != {} {
        if devicesFail {
          return false;
        }
        for i := 0 to |t.devices|
          invariant deviceByID == DeviceIndex(t.devices[..i], wanted) && current == old(current)
        {
          IndexExtends(t.devices, i, wanted);
          if t.devices[i].guid in wanted && t.devices[i].status != DEVICE_DISABLED {
            deviceByID := deviceByID[t.devices[i].guid := t.devices[i]];
          }
        }
        assert t.devices[..|t.devices|] == t.devices;
      } else {
        NoDeviceWanted(t.devices);
      }
      if policiesFail {
        return false;
      }
      var routes: map<string, Route> := map[];
      for i := 0 to |t.mappings|
        invariant routes == RoutesOf(t.mappings[..i], deviceByID, t.policies)
      {
        RoutesExtend(t.mappings, i, deviceByID, t.policies);
        var mapping := t.mappings[i];
        if !Routed(mapping) || mapping.deviceGuid !in deviceByID {
          continue;
        }
        var host := GatewayHost(mapping.publicHost);
        if host == "" {
          continue;
        }
        var device := deviceByID[mapping.deviceGuid];
        var allowed := RouteAllowsHTTP(device, mapping, t.policies);
        routes := routes[host := Route(mapping, device, allowed)];
      }
      current := Some(routes);
      return true;
    }
  }

  lemma {:induction false} NoDeviceWanted(devices: seq<Device>)
    ensures DeviceIndex(devices, {}) == map[]
  {
    if devices != [] {
      NoDeviceWanted(devices[..|devices| - 1]);
    }
  }
}
