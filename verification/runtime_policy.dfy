/**
 The runtime policy of the gateways: a sliding-window rate limit for each source, and session permits.
 Times are nanoseconds. Calls are taken in the order in which they hold the lock, and their clock readings
 are assumed not to go back in that order (Acquire reads the clock before it takes the lock).
 */
module RuntimePolicies {
  import opened Text

  type Time = int

  const MINUTE: Time := 60_000_000_000

  datatype Settings = Settings(maxConcurrentSessions: int, maxDeviceSessions: int, rateLimitPerMinute: int)

  datatype Permit = Permit(deviceGuid: string, sourceIP: string)

  datatype Answer = Granted(permit: Permit) | RateLimitExceeded | MaxSessionsExceeded | MaxDeviceSessionsExceeded

  datatype State = State(
    total: nat,
    byDevice: map<string, nat>,
    sourceHits: map<string, seq<Time>>,
    lastHitSweep: Option<Time>)

  const Initial := State(0, map[], map[], None)

  /** The hits later than t, in order. */
  function After(hits: seq<Time>, t: Time): seq<Time> {
    if hits == [] then []
    else
      var last := hits[|hits| - 1];
      After(hits[..|hits| - 1], t) + if last > t then [last] else []
  }

  function Hits(sourceHits: map<string, seq<Time>>, source: string): seq<Time> {
    if source in sourceHits then sourceHits[source] else []
  }

  function Count(byDevice: map<string, nat>, device: string): nat {
    if device in byDevice then byDevice[device] else 0
  }

  /** sweepSourceHitsLocked */
  function Sweep(s: State, now: Time): State {
    if s.lastHitSweep.Some? && now - s.lastHitSweep.value < MINUTE then s
    else
      s.(sourceHits := map source | source in s.sourceHits && After(s.sourceHits[source], now - MINUTE) != []
                         :: After(s.sourceHits[source], now - MINUTE),
         lastHitSweep := Some(now))
  }

  /** The two session limits and the permit. */
  function Admit(s: State, device: string, source: string, settings: Settings): (State, Answer) {
    if settings.maxConcurrentSessions > 0 && s.total >= settings.maxConcurrentSessions then (s, MaxSessionsExceeded)
    else if
      settings.maxDeviceSessions > 0 && device != "" && Count(s.byDevice, device) >= settings.maxDeviceSessions
    then
      (s, MaxDeviceSessionsExceeded)
    else
      (s.(total := s.total + 1,
          byDevice := if device != "" then s.byDevice[device := Count(s.byDevice, device) + 1] else s.byDevice),
       Granted(Permit(device, source)))
  }

  /** The rate limit: prune the source's hits, and record this one if there is room. */
  function Record(hits: map<string, seq<Time>>, source: string, limit: int, now: Time): (map<string, seq<Time>>, bool) {
    if limit > 0 && source != "" then
      var kept := After(Hits(hits, source), now - MINUTE);
      if |kept| >= limit then (hits[source := kept], false) else (hits[source := kept + [now]], true)
    else (hits, true)
  }

  function AfterAcquire(s: State, deviceGuid: string, sourceIP: string, settings: Settings, now: Time)
    : (State, Answer)
  {
    var device, source := TrimSpace(deviceGuid), TrimSpace(sourceIP);
    var s1 := Sweep(s, now);
    var (hits, ok) := Record(s1.sourceHits, source, settings.rateLimitPerMinute, now);
    var s2 := s1.(sourceHits := hits);
    if ok then Admit(s2, device, source, settings) else (s2, RateLimitExceeded)
  }

  function AfterRelease(s: State, permit: Permit): State {
    var d := permit.deviceGuid;
    var s1 := s.(total := if s.total > 0 then s.total - 1 else 0);
    if d != "" && Count(s.byDevice, d) > 0 then
      s1.(byDevice := if s.byDevice[d] == 1 then s.byDevice - {d} else s.byDevice[d := s.byDevice[d] - 1])
    else s1
  }

  // ---------------------------------------------------------------- the limiter that forgets nothing

  /** The reference limiter: the same sessions, and every recorded hit kept for ever. */
  datatype Ledger = Ledger(sessions: State, history: map<string, seq<Time>>)

  function LedgerRecord(history: map<string, seq<Time>>, source: string, limit: int, now: Time)
    : (map<string, seq<Time>>, bool)
  {
    if limit > 0 && source != "" then
      var hits := Hits(history, source);
      if |After(hits, now - MINUTE)| >= limit then (history, false) else (history[source := hits + [now]], true)
    else (history, true)
  }

  function LedgerAcquire(l: Ledger, deviceGuid: string, sourceIP: string, settings: Settings, now: Time)
    : (Ledger, Answer)
  {
    var device, source := TrimSpace(deviceGuid), TrimSpace(sourceIP);
    var (history, ok) := LedgerRecord(l.history, source, settings.rateLimitPerMinute, now);
    if ok then
      var (sessions, answer) := Admit(l.sessions, device, source, settings);
      (Ledger(sessions, history), answer)
    else (Ledger(l.sessions, history), RateLimitExceeded)
  }

  datatype Call =
    | AcquireCall(deviceGuid: string, sourceIP: string, settings: Settings, now: Time)
    | ReleaseCall(permit: Permit)

  function Answers(s: State, calls: seq<Call>): seq<Answer>
    decreases |calls|
  {
    if calls == [] then []
    else match calls[0]
      case AcquireCall(d, ip, settings, now) =>
        var (s', answer) := AfterAcquire(s, d, ip, settings, now);
        [answer] + Answers(s', calls[1..])
      case ReleaseCall(permit) => Answers(AfterRelease(s, permit), calls[1..])
  }

  function LedgerAnswers(l: Ledger, calls: seq<Call>): seq<Answer>
    decreases |calls|
  {
    if calls == [] then []
    else match calls[0]
      case AcquireCall(d, ip, settings, now) =>
        var (l', answer) := LedgerAcquire(l, d, ip, settings, now);
        [answer] + LedgerAnswers(l', calls[1..])
      case ReleaseCall(permit) => LedgerAnswers(l.(sessions := AfterRelease(l.sessions, permit)), calls[1..])
  }

  /** The clock does not go back from one Acquire to the next. */
  predicate InOrder(clock: Time, calls: seq<Call>)
    decreases |calls|
  {
    if calls == [] then true
    else if calls[0].ReleaseCall? then InOrder(clock, calls[1..])
    else clock <= calls[0].now && InOrder(calls[0].now, calls[1..])
  }

  /** At clock `clock` the limiter has all recorded hits that can still count. */
  ghost predicate SameRecent(hits: map<string, seq<Time>>, history: map<string, seq<Time>>, clock: Time) {
    forall source, t :: t >= clock - MINUTE ==> After(Hits(hits, source), t) == After(Hits(history, source), t)
  }

  ghost predicate Agree(s: State, l: Ledger, clock: Time) {
    s.total == l.sessions.total && s.byDevice == l.sessions.byDevice && SameRecent(s.sourceHits, l.history, clock)
  }

  lemma {:induction false} AfterAfter(hits: seq<Time>, t: Time, u: Time)
    requires t <= u
    ensures After(After(hits, t), u) == After(hits, u)
  {
    if hits != [] {
      var front, last := hits[..|hits| - 1], hits[|hits| - 1];
      AfterAfter(front, t, u);
      AfterAppend(After(front, t), last, u);
      assert last <= t ==> After(hits, t) == After(front, t);
    }
  }

  lemma AfterAppend(hits: seq<Time>, h: Time, t: Time)
    ensures After(hits + [h], t) == After(hits, t) + if h > t then [h] else []
  {
  }

  lemma SweepAgrees(s: State, history: map<string, seq<Time>>, clock: Time, now: Time)
    requires SameRecent(s.sourceHits, history, clock) && clock <= now
    ensures SameRecent(Sweep(s, now).sourceHits, history, now)
  {
    var s1 := Sweep(s, now);
    forall source, t | t >= now - MINUTE
      ensures After(Hits(s1.sourceHits, source), t) == After(Hits(history, source), t)
    {
      var hits := Hits(s.sourceHits, source);
      assert After(hits, t) == After(Hits(history, source), t);
      AfterAfter(hits, now - MINUTE, t);
    }
  }

  lemma RecordAgreesAt(hits: seq<Time>, all: seq<Time>, now: Time, t: Time)
    requires now - MINUTE <= t && After(hits, t) == After(all, t)
    ensures After(After(hits, now - MINUTE), t) == After(all, t)
    ensures After(After(hits, now - MINUTE) + [now], t) == After(all + [now], t)
  {
    AfterAfter(hits, now - MINUTE, t);
    AfterAppend(After(hits, now - MINUTE), now, t);
    AfterAppend(all, now, t);
  }

  lemma RecordAgreesFor(hits: map<string, seq<Time>>, history: map<string, seq<Time>>, source: string, limit: int,
                        now: Time, other: string, t: Time)
    requires now - MINUTE <= t && After(Hits(hits, other), t) == After(Hits(history, other), t)
    requires After(Hits(hits, source), now - MINUTE) == After(Hits(history, source), now - MINUTE)
    ensures var (hits', ok) := Record(hits, source, limit, now);
            var (history', ok') := LedgerRecord(history, source, limit, now);
            ok == ok' && After(Hits(hits', other), t) == After(Hits(history', other), t)
  {
    hide After;
    if other == source {
      RecordAgreesAt(Hits(hits, source), Hits(history, source), now, t);
    }
  }

  lemma RecordAgrees(hits: map<string, seq<Time>>, history: map<string, seq<Time>>, source: string, limit: int,
                     now: Time)
    requires SameRecent(hits, history, now)
    ensures var (hits', ok) := Record(hits, source, limit, now);
            var (history', ok') := LedgerRecord(history, source, limit, now);
            ok == ok' && SameRecent(hits', history', now)
  {
    hide After, Record, LedgerRecord, Hits;
    var (hits', ok) := Record(hits, source, limit, now);
    var (history', ok') := LedgerRecord(history, source, limit, now);
    assert After(Hits(hits, source), now - MINUTE) == After(Hits(history, source), now - MINUTE);
    RecordAgreesFor(hits, history, source, limit, now, source, now - MINUTE);
    forall other, t | t >= now - MINUTE
      ensures After(Hits(hits', other), t) == After(Hits(history', other), t)
    {
      assert After(Hits(hits, other), t) == After(Hits(history, other), t);
      RecordAgreesFor(hits, history, source, limit, now, other, t);
    }
  }

  lemma AcquireAgrees(s: State, l: Ledger, clock: Time, d: string, ip: string, settings: Settings, now: Time)
    requires Agree(s, l, clock) && clock <= now
    ensures var (s', answer) := AfterAcquire(s, d, ip, settings, now);
            var (l', answer') := LedgerAcquire(l, d, ip, settings, now);
            answer == answer' && Agree(s', l', now)
  {
    hide SameRecent;
    SweepAgrees(s, l.history, clock, now);
    RecordAgrees(Sweep(s, now).sourceHits, l.history, TrimSpace(ip), settings.rateLimitPerMinute, now);
  }

  /** Refinement: pruning in place and sweeping once a minute never change an answer. */
  lemma {:induction false} ForgettingChangesNoAnswer(s: State, l: Ledger, clock: Time, calls: seq<Call>)
    requires Agree(s, l, clock) && InOrder(clock, calls)
    ensures Answers(s, calls) == LedgerAnswers(l, calls)
    decreases |calls|
  {
    if calls != [] {
      match calls[0]
      case AcquireCall(d, ip, settings, now) =>
        AcquireAgrees(s, l, clock, d, ip, settings, now);
        var s', l' := AfterAcquire(s, d, ip, settings, now).0, LedgerAcquire(l, d, ip, settings, now).0;
        ForgettingChangesNoAnswer(s', l', now, calls[1..]);
      case ReleaseCall(permit) =>
        var l' := l.(sessions := AfterRelease(l.sessions, permit));
        ForgettingChangesNoAnswer(AfterRelease(s, permit), l', clock, calls[1..]);
    }
  }

  lemma LimiterRefinesLedger(calls: seq<Call>, clock: Time)
    requires InOrder(clock, calls)
    ensures Answers(Initial, calls) == LedgerAnswers(Ledger(Initial, map[]), calls)
  {
    assert Agree(Initial, Ledger(Initial, map[]), clock);
    ForgettingChangesNoAnswer(Initial, Ledger(Initial, map[]), clock, calls);
  }

  // ---------------------------------------------------------------- the limit

  function LedgerAfter(l: Ledger, calls: seq<Call>): Ledger
    decreases |calls|
  {
    if calls == [] then l
    else match calls[0]
      case AcquireCall(d, ip, settings, now) => LedgerAfter(LedgerAcquire(l, d, ip, settings, now).0, calls[1..])
      case ReleaseCall(permit) => LedgerAfter(l.(sessions := AfterRelease(l.sessions, permit)), calls[1..])
  }

  /** How many hits lie in the window (start, start + MINUTE]. */
  function InWindow(hits: seq<Time>, start: Time): nat {
    if hits == [] then 0
    else
      var last := hits[|hits| - 1];
      InWindow(hits[..|hits| - 1], start) + if start < last <= start + MINUTE then 1 else 0
  }

  lemma {:induction false} WindowWithin(hits: seq<Time>, start: Time, t: Time)
    ensures t <= start ==> InWindow(hits, start) <= |After(hits, t)|
  {
    if hits != [] {
      WindowWithin(hits[..|hits| - 1], start, t);
    }
  }

  lemma WindowAppend(hits: seq<Time>, h: Time, start: Time)
    ensures InWindow(hits + [h], start) == InWindow(hits, start) + if start < h <= start + MINUTE then 1 else 0
  {
  }

  ghost predicate WithinLimit(history: map<string, seq<Time>>, limit: nat) {
    forall source, start :: InWindow(Hits(history, source), start) <= limit
  }

  lemma RecordKeepsWindow(hits: seq<Time>, now: Time, limit: nat, start: Time)
    requires |After(hits, now - MINUTE)| < limit && InWindow(hits, start) <= limit
    ensures InWindow(hits + [now], start) <= limit
  {
    WindowAppend(hits, now, start);
    WindowWithin(hits, start, now - MINUTE);
  }

  lemma RecordKeepsLimit(history: map<string, seq<Time>>, source: string, limit: nat, now: Time)
    requires limit > 0 && WithinLimit(history, limit)
    ensures WithinLimit(LedgerRecord(history, source, limit, now).0, limit)
  {
    var (history', ok) := LedgerRecord(history, source, limit, now);
    forall other, start ensures InWindow(Hits(history', other), start) <= limit {
      assert InWindow(Hits(history, other), start) <= limit;
      if other == source && source != "" && ok {
        RecordKeepsWindow(Hits(history, source), now, limit, start);
      }
    }
  }

  predicate FixedLimit(calls: seq<Call>, limit: int) {
    forall k | 0 <= k < |calls| && calls[k].AcquireCall? :: calls[k].settings.rateLimitPerMinute == limit
  }

  /** With a fixed limit no source ever has more recorded hits than that in any window of a minute. */
  lemma {:induction false} NoWindowExceedsLimit(l: Ledger, calls: seq<Call>, limit: nat)
    requires limit > 0 && WithinLimit(l.history, limit) && FixedLimit(calls, limit)
    ensures WithinLimit(LedgerAfter(l, calls).history, limit)
    decreases |calls|
  {
    if calls != [] {
      assert forall k | 0 <= k < |calls[1..]| :: calls[1..][k] == calls[k + 1];
      match calls[0]
      case AcquireCall(d, ip, settings, now) =>
        RecordKeepsLimit(l.history, TrimSpace(ip), limit, now);
        NoWindowExceedsLimit(LedgerAcquire(l, d, ip, settings, now).0, calls[1..], limit);
      case ReleaseCall(permit) =>
        NoWindowExceedsLimit(l.(sessions := AfterRelease(l.sessions, permit)), calls[1..], limit);
    }
  }

  /** The times of the calls of a source that the rate limit has let through. */
  function PassedTimes(calls: seq<Call>, answers: seq<Answer>, source: string): seq<Time>
    decreases |calls|
  {
    if calls == [] || answers == [] then []
    else match calls[0]
      case AcquireCall(_, ip, _, now) =>
        (if TrimSpace(ip) == source && !answers[0].RateLimitExceeded? then [now] else [])
        + PassedTimes(calls[1..], answers[1..], source)
      case ReleaseCall(_) => PassedTimes(calls[1..], answers, source)
  }

  lemma RecordedIffPassed(l: Ledger, d: string, ip: string, settings: Settings, now: Time, source: string)
    requires settings.rateLimitPerMinute > 0 && source != ""
    ensures var (l', answer) := LedgerAcquire(l, d, ip, settings, now);
            Hits(l'.history, source)
            == Hits(l.history, source) + if TrimSpace(ip) == source && !answer.RateLimitExceeded? then [now] else []
  {
    hide After, TrimSpace;
    assert Hits(l.history, source) + [] == Hits(l.history, source);
  }

  /** With a limit, the recorded hits of a source are exactly its calls that were let through. */
  lemma {:induction false} HistoryIsPassed(l: Ledger, calls: seq<Call>, limit: nat, source: string)
    requires limit > 0 && FixedLimit(calls, limit) && source != ""
    ensures Hits(LedgerAfter(l, calls).history, source)
            == Hits(l.history, source) + PassedTimes(calls, LedgerAnswers(l, calls), source)
    decreases |calls|
  {
    hide TrimSpace, LedgerAcquire, AfterRelease, Hits;
    if calls == [] {
      assert Hits(l.history, source) + [] == Hits(l.history, source);
    } else {
      assert forall k | 0 <= k < |calls[1..]| :: calls[1..][k] == calls[k + 1];
      match calls[0]
      case AcquireCall(d, ip, settings, now) =>
        var (l', answer) := LedgerAcquire(l, d, ip, settings, now);
        RecordedIffPassed(l, d, ip, settings, now, source);
        HistoryIsPassed(l', calls[1..], limit, source);
        assert ([answer] + LedgerAnswers(l', calls[1..]))[1..] == LedgerAnswers(l', calls[1..]);
      case ReleaseCall(permit) =>
        HistoryIsPassed(l.(sessions := AfterRelease(l.sessions, permit)), calls[1..], limit, source);
    }
  }

  /** Said of the limiter itself: over any run in clock order with a fixed limit, it lets through at most that
      many calls of a source in any window of a minute. */
  lemma LimiterKeepsLimit(calls: seq<Call>, clock: Time, limit: nat, source: string, start: Time)
    requires limit > 0 && InOrder(clock, calls) && FixedLimit(calls, limit) && source != ""
    ensures InWindow(PassedTimes(calls, Answers(Initial, calls), source), start) <= limit
  {
    var l := Ledger(Initial, map[]);
    LimiterRefinesLedger(calls, clock);
    HistoryIsPassed(l, calls, limit, source);
    NoWindowExceedsLimit(l, calls, limit);
    var passed := PassedTimes(calls, Answers(Initial, calls), source);
    assert [] + passed == passed;
  }

  // ---------------------------------------------------------------- permits

  /** A permit is held while its stream is being opened, while its connection is open, and from the first
      Close of the connection until that Close has released it. */
  datatype Stage = Dialing | Open | Closing | Released

  datatype Session = Session(permit: Permit, stage: Stage)

  datatype Gateway = Gateway(policy: State, sessions: map<nat, Session>)

  /** Dials are numbered. Close may be called any number of times; only the first swap of `closed` goes on. */
  datatype Event =
    | Dial(id: nat, deviceGuid: string, sourceIP: string, settings: Settings, now: Time)
    | OpenFailed(id: nat)
    | Opened(id: nat)
    | Close(id: nat)
    | FinishClose(id: nat)

  predicate Possible(g: Gateway, e: Event) {
    match e
    case Dial(id, _, _, _, _) => id !in g.sessions
    case OpenFailed(id) => id in g.sessions && g.sessions[id].stage == Dialing
    case Opened(id) => id in g.sessions && g.sessions[id].stage == Dialing
    case Close(id) => id in g.sessions && g.sessions[id].stage != Dialing
    case FinishClose(id) => id in g.sessions && g.sessions[id].stage == Closing
  }

  function Occur(g: Gateway, e: Event): Gateway
    requires Possible(g, e)
  {
    match e
    case Dial(id, d, ip, settings, now) =>
      var (policy, answer) := AfterAcquire(g.policy, d, ip, settings, now);
      Gateway(policy, if answer.Granted? then g.sessions[id := Session(answer.permit, Dialing)] else g.sessions)
    case OpenFailed(id) => ReleaseOf(g, id)
    case Opened(id) => g.(sessions := g.sessions[id := g.sessions[id].(stage := Open)])
    case Close(id) =>
      if g.sessions[id].stage == Open then g.(sessions := g.sessions[id := g.sessions[id].(stage := Closing)]) else g
    case FinishClose(id) => ReleaseOf(g, id)
  }

  function ReleaseOf(g: Gateway, id: nat): Gateway
    requires id in g.sessions
  {
    Gateway(AfterRelease(g.policy, g.sessions[id].permit), g.sessions[id := g.sessions[id].(stage := Released)])
  }

  predicate Holds(g: Gateway, id: nat) {
    id in g.sessions && g.sessions[id].stage != Released
  }

  function Holders(g: Gateway): set<nat> {
    set id | id in g.sessions && Holds(g, id)
  }

  function DeviceHolders(g: Gateway, device: string): set<nat> {
    set id | id in g.sessions && Holds(g, id) && g.sessions[id].permit.deviceGuid == device
  }

  /** The counters are the numbers of permits held; a device without permits has no entry. */
  ghost predicate Exact(g: Gateway) {
    && g.policy.total == |Holders(g)|
    && (forall device | device != "" :: Count(g.policy.byDevice, device) == |DeviceHolders(g, device)|)
    && (forall device | device in g.policy.byDevice :: device != "" && g.policy.byDevice[device] > 0)
  }

  function WithDial(g: Gateway, id: nat, permit: Permit, s: State): Gateway {
    Gateway(s, g.sessions[id := Session(permit, Dialing)])
  }

  lemma DialAddsHolder(g: Gateway, id: nat, permit: Permit, s: State, device: string)
    requires id !in g.sessions
    ensures id !in Holders(g) && Holders(WithDial(g, id, permit, s)) == Holders(g) + {id}
    ensures id !in DeviceHolders(g, device)
    ensures DeviceHolders(WithDial(g, id, permit, s), device)
            == if permit.deviceGuid == device then DeviceHolders(g, device) + {id} else DeviceHolders(g, device)
  {
  }

  lemma GrantedIsCounted(g: Gateway, id: nat, permit: Permit, s: State)
    requires Exact(g) && id !in g.sessions && s.total == g.policy.total + 1
    requires s.byDevice == if permit.deviceGuid != ""
             then g.policy.byDevice[permit.deviceGuid := Count(g.policy.byDevice, permit.deviceGuid) + 1]
                           else g.policy.byDevice
    ensures Exact(WithDial(g, id, permit, s))
  {
    DialAddsHolder(g, id, permit, s, "");
    hide DeviceHolders, Holders;
    forall device | device != ""
      ensures Count(s.byDevice, device) == |DeviceHolders(WithDial(g, id, permit, s), device)|
    {
      DialAddsHolder(g, id, permit, s, device);
    }
  }

  /** A holder's release finds both counters above zero, so the guards of Release do nothing. */
  lemma GuardsNeverFire(g: Gateway, id: nat)
    requires Exact(g) && Holds(g, id)
    ensures g.policy.total > 0
    ensures var d := g.sessions[id].permit.deviceGuid;
            d != "" ==> d in g.policy.byDevice && g.policy.byDevice[d] > 0
  {
    assert id in Holders(g);
    assert id in DeviceHolders(g, g.sessions[id].permit.deviceGuid);
  }

  lemma ReleaseIsCounted(g: Gateway, id: nat)
    requires Exact(g) && Holds(g, id)
    ensures Exact(ReleaseOf(g, id))
  {
    GuardsNeverFire(g, id);
    var g' := ReleaseOf(g, id);
    ReleaseDropsHolder(g, id, "");
    hide Holders, DeviceHolders;
    forall device | device != "" ensures Count(g'.policy.byDevice, device) == |DeviceHolders(g', device)| {
      ReleaseDropsHolder(g, id, device);
    }
  }

  lemma ReleaseDropsHolder(g: Gateway, id: nat, device: string)
    requires Holds(g, id)
    ensures id in Holders(g) && Holders(ReleaseOf(g, id)) == Holders(g) - {id}
    ensures g.sessions[id].permit.deviceGuid == device ==> id in DeviceHolders(g, device)
    ensures DeviceHolders(ReleaseOf(g, id), device)
            == if g.sessions[id].permit.deviceGuid == device then DeviceHolders(g, device) - {id}
               else DeviceHolders(g, device)
  {
  }

  lemma StageIsNotCounted(g: Gateway, id: nat, stage: Stage)
    requires Exact(g) && Holds(g, id) && stage != Released
    ensures Exact(g.(sessions := g.sessions[id := g.sessions[id].(stage := stage)]))
  {
    var g' := g.(sessions := g.sessions[id := g.sessions[id].(stage := stage)]);
    assert Holders(g') == Holders(g);
    forall device ensures DeviceHolders(g', device) == DeviceHolders(g, device) {
    }
  }

  lemma AcquireCounts(s: State, d: string, ip: string, settings: Settings, now: Time)
    ensures var (s', answer) := AfterAcquire(s, d, ip, settings, now);
            var device := TrimSpace(d);
            if answer.Granted? then
              && s'.total == s.total + 1 && answer.permit.deviceGuid == device
              && s'.byDevice == (if device != "" then s.byDevice[device := Count(s.byDevice, device) + 1]
                else s.byDevice)
              && (settings.maxConcurrentSessions > 0 ==> s'.total <= settings.maxConcurrentSessions)
              && (settings.maxDeviceSessions > 0 && device != "" ==> s'.byDevice[device] <= settings.maxDeviceSessions)
            else s'.total == s.total && s'.byDevice == s.byDevice
  {
  }

  /** Permits are exact after every event. */
  lemma OccurKeepsExact(g: Gateway, e: Event)
    requires Exact(g) && Possible(g, e)
    ensures Exact(Occur(g, e))
  {
    match e
    case Dial(id, d, ip, settings, now) =>
      AcquireCounts(g.policy, d, ip, settings, now);
      var (s, answer) := AfterAcquire(g.policy, d, ip, settings, now);
      if answer.Granted? {
        GrantedIsCounted(g, id, answer.permit, s);
      } else {
        assert Holders(Occur(g, e)) == Holders(g);
        forall device ensures DeviceHolders(Occur(g, e), device) == DeviceHolders(g, device) {
        }
      }
    case OpenFailed(id) => ReleaseIsCounted(g, id);
    case Opened(id) => StageIsNotCounted(g, id, Open);
    case Close(id) =>
      if g.sessions[id].stage == Open {
        StageIsNotCounted(g, id, Closing);
      }
    case FinishClose(id) => ReleaseIsCounted(g, id);
  }

  predicate Caps(g: Gateway, settings: Settings) {
    && (settings.maxConcurrentSessions > 0 ==> g.policy.total <= settings.maxConcurrentSessions)
    && (settings.maxDeviceSessions > 0 ==>
      forall d | d in g.policy.byDevice :: g.policy.byDevice[d] <= settings.maxDeviceSessions)
  }

  lemma OccurKeepsCaps(g: Gateway, e: Event, settings: Settings)
    requires Exact(g) && Possible(g, e) && Caps(g, settings) && (e.Dial? ==> e.settings == settings)
    ensures Caps(Occur(g, e), settings)
  {
  }

  predicate Happens(g: Gateway, events: seq<Event>, h: Gateway)
    decreases |events|
  {
    if events == [] then h == g
    else Possible(g, events[0]) && Happens(Occur(g, events[0]), events[1..], h)
  }

  const Idle := Gateway(Initial, map[])

  predicate FixedSettings(events: seq<Event>, settings: Settings) {
    forall k | 0 <= k < |events| && events[k].Dial? :: events[k].settings == settings
  }

  /** Over every run of dials, failed opens and closes: the counters are exact, and with fixed settings both
      caps hold at the end, hence at every moment. */
  lemma {:induction false} PermitsAreExact(g: Gateway, events: seq<Event>, h: Gateway, settings: Settings)
    requires Exact(g) && Happens(g, events, h)
    ensures Exact(h)
    ensures Caps(g, settings) && FixedSettings(events, settings) ==> Caps(h, settings)
    decreases |events|
  {
    if events != [] {
      OccurKeepsExact(g, events[0]);
      assert forall k | 0 <= k < |events[1..]| :: events[1..][k] == events[k + 1];
      if Caps(g, settings) && FixedSettings(events, settings) {
        OccurKeepsCaps(g, events[0], settings);
      }
      PermitsAreExact(Occur(g, events[0]), events[1..], h, settings);
    }
  }

  lemma IdleIsExact(settings: Settings)
    ensures Exact(Idle) && Caps(Idle, settings)
  {
  }

  /** When every connection has been closed and every close has finished, nothing is counted. */
  lemma AllReleasedCountsNothing(g: Gateway)
    requires Exact(g) && forall id | id in g.sessions :: g.sessions[id].stage == Released
    ensures g.policy.total == 0 && g.policy.byDevice == map[]
  {
    assert Holders(g) == {};
    forall device | device != "" ensures device !in g.policy.byDevice {
      assert DeviceHolders(g, device) == {};
    }
    assert g.policy.byDevice.Keys == {};
  }

  // ---------------------------------------------------------------- what a dial is answered

  /** The positions of the hits later than t. */
  function Recent(hits: seq<Time>, t: Time): set<nat> {
    set i: nat | i < |hits| && hits[i] > t
  }

  lemma {:induction false} AfterCountsRecent(hits: seq<Time>, t: Time)
    ensures |After(hits, t)| == |Recent(hits, t)|
  {
    if hits != [] {
      var front, n := hits[..|hits| - 1], |hits| - 1;
      AfterCountsRecent(front, t);
      assert n !in Recent(front, t);
      assert Recent(hits, t) == if hits[n] > t then Recent(front, t) + {n} else Recent(front, t);
    }
  }

  lemma SweptHitsCount(s: State, now: Time, source: string)
    ensures |After(Hits(Sweep(s, now).sourceHits, source), now - MINUTE)|
            == |Recent(Hits(s.sourceHits, source), now - MINUTE)|
  {
    var hits := Hits(s.sourceHits, source);
    AfterAfter(hits, now - MINUTE, now - MINUTE);
    AfterCountsRecent(hits, now - MINUTE);
  }

  /** The source has used up its limit within the last minute. */
  predicate Limited(g: Gateway, source: string, limit: int, now: Time) {
    limit > 0 && source != "" && |Recent(Hits(g.policy.sourceHits, source), now - 60_000_000_000)| >= limit
  }

  /** As many permits are held as may be. */
  predicate Full(g: Gateway, cap: int) {
    cap > 0 && |Holders(g)| >= cap
  }

  predicate DeviceFull(g: Gateway, device: string, cap: int) {
    cap > 0 && device != "" && |DeviceHolders(g, device)| >= cap
  }

  /** Each answer of a dial has its one cause: the rate limit first, then the permits held, then those held by
      the device, and if nothing stands against it the dial is granted. */
  lemma DialAnswerIff(g: Gateway, d: string, ip: string, settings: Settings, now: Time)
    requires Exact(g)
    ensures var answer := AfterAcquire(g.policy, d, ip, settings, now).1;
            var limited := Limited(g, TrimSpace(ip), settings.rateLimitPerMinute, now);
            var full := Full(g, settings.maxConcurrentSessions);
            var deviceFull := DeviceFull(g, TrimSpace(d), settings.maxDeviceSessions);
            && (answer == RateLimitExceeded <==> limited)
            && (answer == MaxSessionsExceeded <==> !limited && full)
            && (answer == MaxDeviceSessionsExceeded <==> !limited && !full && deviceFull)
            && (answer == Granted(Permit(TrimSpace(d), TrimSpace(ip))) <==> !limited && !full && !deviceFull)
  {
    hide After, TrimSpace, Recent, Sweep, Holders, DeviceHolders;
    SweptHitsCount(g.policy, now, TrimSpace(ip));
    assert Sweep(g.policy, now).total == g.policy.total && Sweep(g.policy, now).byDevice == g.policy.byDevice by {
      SweepKeepsSessions(g.policy, now);
    }
  }

  lemma SweepKeepsSessions(s: State, now: Time)
    ensures Sweep(s, now).total == s.total && Sweep(s, now).byDevice == s.byDevice
  {
  }

  /** A granted dial holds a permit until its stream has failed to open, or its connection has been closed and
      that Close has finished. Nothing else gives a permit or takes one. */
  lemma EventsMovePermits(g: Gateway, e: Event)
    requires Exact(g) && Possible(g, e)
    ensures var h := Occur(g, e);
            match e
            case Dial(id, d, ip, settings, now) =>
              var granted := !Limited(g, TrimSpace(ip), settings.rateLimitPerMinute, now)
                             && !Full(g, settings.maxConcurrentSessions)
                             && !DeviceFull(g, TrimSpace(d), settings.maxDeviceSessions);
              h.sessions == if granted then g.sessions[id := Session(Permit(TrimSpace(d), TrimSpace(ip)), Dialing)]
                            else g.sessions
            case OpenFailed(id) => id in Holders(g) && Holders(h) == Holders(g) - {id}
            case Opened(id) => Holders(h) == Holders(g) && h.sessions[id].stage == Open
            case Close(id) =>
              && Holders(h) == Holders(g)
              && (g.sessions[id].stage == Open ==> Possible(h, FinishClose(id)))
              && (g.sessions[id].stage != Open ==> h == g)
            case FinishClose(id) => id in Holders(g) && Holders(h) == Holders(g) - {id}
  {
    match e
    case Dial(id, d, ip, settings, now) =>
      hide Exact, AfterAcquire, TrimSpace, Limited, Full, DeviceFull;
      DialAnswerIff(g, d, ip, settings, now);
    case OpenFailed(id) => ReleaseDropsHolder(g, id, "");
    case FinishClose(id) => ReleaseDropsHolder(g, id, "");
    case _ =>
  }

  function StateAfter(s: State, calls: seq<Call>): State
    decreases |calls|
  {
    if calls == [] then s
    else match calls[0]
      case AcquireCall(d, ip, settings, now) => StateAfter(AfterAcquire(s, d, ip, settings, now).0, calls[1..])
      case ReleaseCall(permit) => StateAfter(AfterRelease(s, permit), calls[1..])
  }

  /** The clock reading of the last Acquire, or `clock` if there is none. */
  function LastReading(clock: Time, calls: seq<Call>): Time
    decreases |calls|
  {
    if calls == [] then clock
    else LastReading(if calls[0].AcquireCall? then calls[0].now else clock, calls[1..])
  }

  lemma {:induction false} StatesAgree(s: State, l: Ledger, clock: Time, calls: seq<Call>)
    requires Agree(s, l, clock) && InOrder(clock, calls)
    ensures Agree(StateAfter(s, calls), LedgerAfter(l, calls), LastReading(clock, calls))
    decreases |calls|
  {
    hide AfterAcquire, LedgerAcquire;
    if calls != [] {
      match calls[0]
      case AcquireCall(d, ip, settings, now) =>
        AcquireAgrees(s, l, clock, d, ip, settings, now);
        var s', l' := AfterAcquire(s, d, ip, settings, now).0, LedgerAcquire(l, d, ip, settings, now).0;
        StatesAgree(s', l', now, calls[1..]);
      case ReleaseCall(permit) =>
        StatesAgree(AfterRelease(s, permit), l.(sessions := AfterRelease(l.sessions, permit)), clock, calls[1..]);
    }
  }

  lemma LedgerRefusesIff(l: Ledger, d: string, ip: string, settings: Settings, now: Time)
    requires settings.rateLimitPerMinute > 0 && TrimSpace(ip) != ""
    ensures LedgerAcquire(l, d, ip, settings, now).1 == RateLimitExceeded
            <==> |Recent(Hits(l.history, TrimSpace(ip)), now - 60_000_000_000)| >= settings.rateLimitPerMinute
  {
    hide TrimSpace, After, Recent;
    AfterCountsRecent(Hits(l.history, TrimSpace(ip)), now - MINUTE);
  }

  /** The rate limit refuses no call too many and none too few: after any run in clock order with a fixed
      limit, the next call of a source is refused by it exactly if that many calls of the source have been let
      through in the minute before. */
  lemma RefusedExactlyAtLimit(calls: seq<Call>, clock: Time, limit: nat, d: string, ip: string, settings: Settings,
                              now: Time)
    requires limit > 0 && InOrder(clock, calls) && FixedLimit(calls, limit) && settings.rateLimitPerMinute == limit
    requires LastReading(clock, calls) <= now && TrimSpace(ip) != ""
    ensures var passed := PassedTimes(calls, Answers(Initial, calls), TrimSpace(ip));
            AfterAcquire(StateAfter(Initial, calls), d, ip, settings, now).1 == RateLimitExceeded
            <==> |Recent(passed, now - 60_000_000_000)| >= limit
  {
    hide TrimSpace, AfterAcquire, LedgerAcquire, Recent, StateAfter, LedgerAfter, InOrder;
    var l := Ledger(Initial, map[]);
    assert Agree(Initial, l, clock);
    StatesAgree(Initial, l, clock, calls);
    LimiterRefinesLedger(calls, clock);
    HistoryIsPassed(l, calls, limit, TrimSpace(ip));
    var s', l' := StateAfter(Initial, calls), LedgerAfter(l, calls);
    AcquireAgrees(s', l', LastReading(clock, calls), d, ip, settings, now);
    LedgerRefusesIff(l', d, ip, settings, now);
    var passed := PassedTimes(calls, Answers(Initial, calls), TrimSpace(ip));
    assert [] + passed == passed;
  }

  /** Swept within the last minute: no source is kept without hits, and no hit from before the sweep's window. */
  ghost predicate Swept(s: State, now: Time) {
    && s.lastHitSweep.Some? && now - 60_000_000_000 < s.lastHitSweep.value <= now
    && forall source | source in s.sourceHits ::
         s.sourceHits[source] != []
         && forall i | 0 <= i < |s.sourceHits[source]| :: s.lastHitSweep.value - MINUTE < s.sourceHits[source][i] <= now
  }

  lemma {:induction false} AfterIsPart(hits: seq<Time>, t: Time)
    ensures forall h | h in After(hits, t) :: h in hits && h > t
  {
    if hits != [] {
      AfterIsPart(hits[..|hits| - 1], t);
    }
  }

  lemma SweepSweeps(s: State, clock: Time, now: Time)
    requires s.sourceHits == map[] || Swept(s, clock)
    requires clock <= now && (s.lastHitSweep.Some? ==> s.lastHitSweep.value <= clock)
    ensures Swept(Sweep(s, now), now)
  {
    var t := Sweep(s, now);
    forall source | source in t.sourceHits && t != s
      ensures forall i | 0 <= i < |t.sourceHits[source]| :: now - MINUTE < t.sourceHits[source][i] <= now
    {
      AfterIsPart(s.sourceHits[source], now - MINUTE);
      forall i | 0 <= i < |t.sourceHits[source]| ensures now - MINUTE < t.sourceHits[source][i] <= now {
        assert t.sourceHits[source][i] in t.sourceHits[source];
      }
    }
  }

  lemma RecordKeepsSwept(s: State, source: string, limit: int, now: Time)
    requires Swept(s, now)
    ensures Swept(s.(sourceHits := Record(s.sourceHits, source, limit, now).0), now)
  {
    var hits := Hits(s.sourceHits, source);
    var kept := After(hits, now - MINUTE);
    AfterIsPart(hits, now - MINUTE);
    forall i | 0 <= i < |kept| ensures s.lastHitSweep.value - MINUTE < kept[i] <= now {
      assert kept[i] in kept;
    }
  }

  lemma AcquireSweeps(s: State, clock: Time, d: string, ip: string, settings: Settings, now: Time)
    requires s.sourceHits == map[] || Swept(s, clock)
    requires clock <= now && (s.lastHitSweep.Some? ==> s.lastHitSweep.value <= clock)
    ensures Swept(AfterAcquire(s, d, ip, settings, now).0, now)
  {
    hide Sweep, Record, TrimSpace;
    SweepSweeps(s, clock, now);
    RecordKeepsSwept(Sweep(s, now), TrimSpace(ip), settings.rateLimitPerMinute, now);
  }

  ghost predicate Remembers(s: State, now: Time) {
    forall source | source in s.sourceHits ::
      s.sourceHits[source] != [] && forall h | h in s.sourceHits[source] :: now - 120_000_000_000 < h <= now
  }

  /** What is forgotten: whatever the calls were, the limiter never keeps a source without hits, nor a hit two
      minutes old, so a source that stops calling takes no room. */
  lemma {:induction false} OldHitsAreForgotten(s: State, clock: Time, calls: seq<Call>)
    requires InOrder(clock, calls) && (s.sourceHits == map[] || Swept(s, clock))
    requires s.lastHitSweep.Some? ==> s.lastHitSweep.value <= clock
    ensures Remembers(StateAfter(s, calls), LastReading(clock, calls))
    decreases |calls|
  {
    if calls != [] {
      hide AfterAcquire, Remembers;
      match calls[0]
      case AcquireCall(d, ip, settings, now) =>
        AcquireSweeps(s, clock, d, ip, settings, now);
        OldHitsAreForgotten(AfterAcquire(s, d, ip, settings, now).0, now, calls[1..]);
      case ReleaseCall(permit) => OldHitsAreForgotten(AfterRelease(s, permit), clock, calls[1..]);
    }
  }

  // ---------------------------------------------------------------- the policy object

  lemma AfterExtends(hits: seq<Time>, i: nat, t: Time)
    requires i < |hits|
    ensures After(hits[..i + 1], t) == After(hits[..i], t) + if hits[i] > t then [hits[i]] else []
  {
    assert hits[..i + 1] == hits[..i] + [hits[i]];
    AfterAppend(hits[..i], hits[i], t);
  }

  lemma {:induction false} AfterIsShorter(hits: seq<Time>, t: Time)
    ensures |After(hits, t)| <= |hits|
  {
    if hits != [] {
      AfterIsShorter(hits[..|hits| - 1], t);
    }
  }

  /** The compaction `kept := hits[:0]` in the slice's own array: the first k cells hold what is kept, and
      no cell was overwritten before it was read. */
  method PruneInPlace(hits: array<Time>, windowStart: Time) returns (k: nat)
    modifies hits
    ensures k <= hits.Length && hits[..k] == After(old(hits[..]), windowStart)
  {
    ghost var before := hits[..];
    k := 0;
    for i := 0 to hits.Length
      invariant k <= i
      invariant hits[..k] == After(before[..i], windowStart)
      invariant forall j | i <= j < hits.Length :: hits[j] == before[j]
    {
      AfterExtends(before, i, windowStart);
      if hits[i] > windowStart {
        hits[k] := hits[i];
        k := k + 1;
      }
    }
    assert before[..hits.Length] == before;
  }

  /** The hits while a sweep has the sources `todo` before it. */
  function SweptExcept(hits: map<string, seq<Time>>, todo: set<string>, windowStart: Time): map<string, seq<Time>> {
    map source | source in hits && (source in todo || After(hits[source], windowStart) != [])
      :: if source in todo then hits[source] else After(hits[source], windowStart)
  }

  lemma SweepOne(hits: map<string, seq<Time>>, todo: set<string>, source: string, windowStart: Time)
    requires source in todo && source in hits
    ensures var kept := After(hits[source], windowStart);
            SweptExcept(hits, todo - {source}, windowStart)
            == if kept == [] then SweptExcept(hits, todo, windowStart) - {source}
               else SweptExcept(hits, todo, windowStart)[source := kept]
  {
  }

  class RuntimePolicy {
    var total: nat
    var byDevice: map<string, nat>
    var sourceHits: map<string, seq<Time>>
    var lastHitSweep: Option<Time>

    ghost function View(): State
      reads this
    {
      State(total, byDevice, sourceHits, lastHitSweep)
    }

    /** NewRuntimePolicy */
    constructor ()
      ensures View() == Initial
    {
      total, byDevice, sourceHits, lastHitSweep := 0, map[], map[], None;
    }

    method Prune(hits: seq<Time>, windowStart: Time) returns (kept: seq<Time>)
      ensures kept == After(hits, windowStart)
    {
      kept := [];
      for i := 0 to |hits|
        invariant kept == After(hits[..i], windowStart)
      {
        AfterExtends(hits, i, windowStart);
        if hits[i] > windowStart {
          kept := kept + [hits[i]];
        }
      }
      assert hits[..|hits|] == hits;
    }

    /** sweepSourceHitsLocked, with the sources in any order. */
    method SweepSourceHits(now: Time)
      modifies this`sourceHits, this`lastHitSweep
      ensures View() == Sweep(old(View()), now)
    {
      if lastHitSweep.Some? && now - lastHitSweep.value < MINUTE {
        return;
      }
      var windowStart := now - MINUTE;
      ghost var before := sourceHits;
      var todo := sourceHits.Keys;
      while todo != {}
        invariant todo <= sourceHits.Keys && sourceHits == SweptExcept(before, todo, windowStart)
        decreases |todo|
      {
        var source :| source in todo;
        var kept := Prune(sourceHits[source], windowStart);
        if |kept| == 0 {
          sourceHits := sourceHits - {source};
        } else {
          sourceHits := sourceHits[source := kept];
        }
        SweepOne(before, todo, source, windowStart);
        todo := todo - {source};
      }
      lastHitSweep := Some(now);
    }

    method Acquire(rawDevice: string, rawSource: string, settings: Settings, now: Time) returns (answer: Answer)
      modifies this
      ensures (View(), answer) == AfterAcquire(old(View()), rawDevice, rawSource, settings, now)
    {
      hide TrimSpace, Sweep, After;
      var deviceGuid, sourceIP := TrimSpace(rawDevice), TrimSpace(rawSource);
      SweepSourceHits(now);
      if settings.rateLimitPerMinute > 0 && sourceIP != "" {
        var kept := Prune(Hits(sourceHits, sourceIP), now - MINUTE);
        if |kept| >= settings.rateLimitPerMinute {
          sourceHits := sourceHits[sourceIP := kept];
          return RateLimitExceeded;
        }
        sourceHits := sourceHits[sourceIP := kept + [now]];
      }
      if settings.maxConcurrentSessions > 0 && total >= settings.maxConcurrentSessions {
        return MaxSessionsExceeded;
      }
      var sessions := Count(byDevice, deviceGuid);
      if settings.maxDeviceSessions > 0 && deviceGuid != "" && sessions >= settings.maxDeviceSessions {
        return MaxDeviceSessionsExceeded;
      }
      total := total + 1;
      if deviceGuid != "" {
        byDevice := byDevice[deviceGuid := Count(byDevice, deviceGuid) + 1];
      }
      return Granted(Permit(deviceGuid, sourceIP));
    }

    method Release(permit: Option<Permit>)
      modifies this`total, this`byDevice
      ensures View() == if permit.Some? then AfterRelease(old(View()), permit.value) else old(View())
    {
      if permit.None? {
        return;
      }
      if total > 0 {
        total := total - 1;
      }
      var d := permit.value.deviceGuid;
      if d != "" && Count(byDevice, d) > 0 {
        byDevice := byDevice[d := byDevice[d] - 1];
        if byDevice[d] == 0 {
          byDevice := byDevice - {d};
        }
      }
    }
  }
}
