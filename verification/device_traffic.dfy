/**
 The daily traffic of devices, added up from samples of interface counters
 (services/device_traffic_service.go). Each sample is one transaction.
 */
module DeviceTraffic {
  import Text
  import opened Utf8

  const MAX_IFACE_BYTES := 64
  const SAMPLE_SKEW := 600_000

  datatype Flow = Flow(device: string, iface: Bytes)
  datatype DayKey = DayKey(flow: Flow, day: string)

  /** The traffic part of a heartbeat, received at `now`. */
  datatype Sample = Sample(device: string, iface: Bytes, bootId: string, rx: int, tx: int, sampleTime: int, now: int)

  /** The last counters of a flow. */
  datatype Counters = Counters(bootId: string, rx: int, tx: int, sampleTime: int)
  datatype Daily = Daily(rx: int, tx: int, total: int, samples: int, resets: int, firstSeen: int, lastSeen: int)
  datatype Tables = Tables(states: map<Flow, Counters>, daily: map<DayKey, Daily>)

  function NormalizeInterface(value: Bytes): Bytes {
    var trimmed := TrimSpace(value);
    if |trimmed| > MAX_IFACE_BYTES then trimmed[..MAX_IFACE_BYTES] else trimmed
  }

  /** The stored name of an interface is normalised again when days are looked up by it. That finds the rows
      exactly when the name is not cut, or is not cut after white space. */
  lemma StoredNameIsFoundIff(value: Bytes)
    ensures NormalizeInterface(NormalizeInterface(value)) == NormalizeInterface(value)
            <==> |TrimSpace(value)| <= MAX_IFACE_BYTES || SpaceTail(TrimSpace(value)[..MAX_IFACE_BYTES]) == 0
  {
    var name := NormalizeInterface(value);
    var _, _ := TrimSpaceCuts(value);
    assert SpaceHead(name) == 0;
    var to := TrimRightCuts(name);
    assert TrimSpace(name) == name[..to];
  }

  /** Sixty-three letters, a space and a letter: the name that is stored is not found. */
  lemma StoredNameNeedNotBeFound(letter: Byte)
    requires 0x61 <= letter <= 0x7A
    ensures var name := NormalizeInterface(seq(63, _ => letter) + [SPACE, letter]);
            NormalizeInterface(name) != name
  {
    var value: Bytes := seq(63, _ => letter) + [SPACE, letter];
    assert value[0] == letter && value[64] == letter && value[63] == SPACE;
    assert SpaceHead(value) == 0 && SpaceTail(value) == 0;
    assert NormalizeInterface(value)[63] == SPACE;
    StoredNameIsFoundIff(value);
  }

  function FlowOf(s: Sample): Flow {
    Flow(Text.TrimSpace(s.device), NormalizeInterface(s.iface))
  }

  predicate Accepted(s: Sample) {
    FlowOf(s).device != "" && FlowOf(s).iface != [] && s.rx >= 0 && s.tx >= 0
  }

  /** A sample time is used if it is within ten minutes of now. */
  function TimeOf(s: Sample): int {
    if s.sampleTime <= 0 || s.sampleTime < s.now - SAMPLE_SKEW || s.sampleTime > s.now + SAMPLE_SKEW then s.now
    else s.sampleTime
  }

  function Reading(s: Sample): Counters {
    Counters(Text.TrimSpace(s.bootId), s.rx, s.tx, TimeOf(s))
  }

  /** trafficCounterReset */
  predicate Reset(last: Counters, next: Counters) {
    next.rx < last.rx || next.tx < last.tx || (next.bootId != "" && last.bootId != "" && next.bootId != last.bootId)
  }

  /** One counted difference: what a sample adds to its day, if anything. */
  datatype Delta = Delta(rx: int, tx: int, resets: int)

  function DeltaOf(last: Counters, next: Counters): (d: Delta)
    requires last.rx >= 0 && last.tx >= 0
    ensures d.rx >= 0 && d.tx >= 0 && 0 <= d.resets <= 1
  {
    if Reset(last, next) then Delta(0, 0, 1) else Delta(next.rx - last.rx, next.tx - last.tx, 0)
  }

  predicate Counted(d: Delta) {
    d.rx > 0 || d.tx > 0 || d.resets > 0
  }

  function Upserted(daily: map<DayKey, Daily>, key: DayKey, d: Delta, at: int): map<DayKey, Daily> {
    daily[key := if key in daily then
                   var row := daily[key];
                   Daily(row.rx + d.rx, row.tx + d.tx, row.total + (d.rx + d.tx), row.samples + 1,
                         row.resets + d.resets, row.firstSeen, at)
                 else Daily(d.rx, d.tx, d.rx + d.tx, 1, d.resets, at, at)]
  }

  predicate StatesOK(states: map<Flow, Counters>) {
    forall f | f in states :: states[f].rx >= 0 && states[f].tx >= 0
  }

  /** RecordHeartbeatSample; `dayOf` is the local calendar. */
  function Recorded(t: Tables, s: Sample, dayOf: int -> string): Tables
    requires StatesOK(t.states)
  {
    var flow := FlowOf(s);
    if !Accepted(s) then t
    else if flow !in t.states then t.(states := t.states[flow := Reading(s)])
    else
      var d := DeltaOf(t.states[flow], Reading(s));
      Tables(t.states[flow := Reading(s)],
             if Counted(d) then Upserted(t.daily, DayKey(flow, dayOf(TimeOf(s))), d, TimeOf(s)) else t.daily)
  }

  // ---------------------------------------------------------------- what every day keeps

  predicate RowOK(row: Daily) {
    row.rx >= 0 && row.tx >= 0 && row.total == row.rx + row.tx && 0 <= row.resets <= row.samples && row.samples > 0
  }

  predicate Inv(t: Tables) {
    StatesOK(t.states) && forall key | key in t.daily :: RowOK(t.daily[key]) && key.flow in t.states
  }

  lemma RecordKeepsInv(t: Tables, s: Sample, dayOf: int -> string)
    requires Inv(t)
    ensures Inv(Recorded(t, s, dayOf))
  {
  }

  function After(samples: seq<Sample>, dayOf: int -> string): (t: Tables)
    ensures Inv(t)
  {
    if samples == [] then Tables(map[], map[])
    else
      var before := After(samples[..|samples| - 1], dayOf);
      RecordKeepsInv(before, samples[|samples| - 1], dayOf);
      Recorded(before, samples[|samples| - 1], dayOf)
  }

  // ---------------------------------------------------------------- conservation

  datatype Column = RX | TX | Total | Resets

  function Value(row: Daily, c: Column): int {
    match c case RX => row.rx case TX => row.tx case Total => row.total case Resets => row.resets
  }

  function Amount(d: Delta, c: Column): int {
    match c case RX => d.rx case TX => d.tx case Total => d.rx + d.tx case Resets => d.resets
  }

  predicate AllNonNegative(r: seq<Counters>) {
    forall i | 0 <= i < |r| :: r[i].rx >= 0 && r[i].tx >= 0
  }

  /** The accepted readings of a flow, in order. */
  function Readings(samples: seq<Sample>, flow: Flow): (r: seq<Counters>)
    ensures AllNonNegative(r)
  {
    if samples == [] then []
    else
      var s := samples[|samples| - 1];
      Readings(samples[..|samples| - 1], flow) + if Accepted(s) && FlowOf(s) == flow then [Reading(s)] else []
  }

  /** The differences between consecutive readings, summed: a reset counts for one reset and no bytes. With a
      day, only those whose later reading falls on that day. */
  function Differences(r: seq<Counters>, c: Column, on: Text.Option<string>, dayOf: int -> string): int
    requires AllNonNegative(r)
  {
    if |r| <= 1 then 0
    else
      var n := |r| - 1;
      Differences(r[..n], c, on, dayOf)
      + if on.None? || on.value == dayOf(r[n].sampleTime) then Amount(DeltaOf(r[n - 1], r[n]), c) else 0
  }

  ghost function Sum(daily: map<DayKey, Daily>, keys: set<DayKey>, c: Column): int
    requires keys <= daily.Keys
    decreases |keys|
  {
    if keys == {} then 0
    else
      var key :| key in keys;
      Value(daily[key], c) + Sum(daily, keys - {key}, c)
  }

  lemma {:induction false} SumWithout(daily: map<DayKey, Daily>, keys: set<DayKey>, key: DayKey, c: Column)
    requires keys <= daily.Keys && key in keys
    ensures Sum(daily, keys, c) == Value(daily[key], c) + Sum(daily, keys - {key}, c)
    decreases |keys|
  {
    var first :| first in keys && Sum(daily, keys, c) == Value(daily[first], c) + Sum(daily, keys - {first}, c);
    if first != key {
      SumWithout(daily, keys - {first}, key, c);
      SumWithout(daily, keys - {key}, first, c);
      assert keys - {first} - {key} == keys - {key} - {first};
    }
  }

  lemma {:induction false} SumSame(a: map<DayKey, Daily>, b: map<DayKey, Daily>, keys: set<DayKey>, c: Column)
    requires keys <= a.Keys && keys <= b.Keys && forall k | k in keys :: a[k] == b[k]
    ensures Sum(a, keys, c) == Sum(b, keys, c)
    decreases |keys|
  {
    if keys != {} {
      var key :| key in keys;
      SumWithout(a, keys, key, c);
      SumWithout(b, keys, key, c);
      SumSame(a, b, keys - {key}, c);
    }
  }

  function DaysOf(daily: map<DayKey, Daily>, flow: Flow): set<DayKey> {
    set key | key in daily && key.flow == flow
  }

  lemma UpsertAdds(daily: map<DayKey, Daily>, key: DayKey, d: Delta, at: int, flow: Flow, c: Column)
    ensures var after := Upserted(daily, key, d, at);
            Sum(after, DaysOf(after, flow), c)
            == Sum(daily, DaysOf(daily, flow), c) + if key.flow == flow then Amount(d, c) else 0
  {
    var after := Upserted(daily, key, d, at);
    var before, now := DaysOf(daily, flow), DaysOf(after, flow);
    if key.flow == flow {
      assert now == before + {key};
      SumWithout(after, now, key, c);
      assert now - {key} == before - {key};
      SumSame(daily, after, before - {key}, c);
      if key in daily {
        SumWithout(daily, before, key, c);
      } else {
        assert before - {key} == before;
      }
    } else {
      assert now == before;
      SumSame(daily, after, before, c);
    }
  }

  lemma RecordAddsDifference(t: Tables, s: Sample, dayOf: int -> string, flow: Flow, c: Column)
    requires Inv(t)
    ensures var after := Recorded(t, s, dayOf);
            Sum(after.daily, DaysOf(after.daily, flow), c) == Sum(t.daily, DaysOf(t.daily, flow), c)
              + Counts(t.states, s, flow, c, Text.None, dayOf)
  {
    hide Accepted, FlowOf;
    if Accepted(s) && FlowOf(s) in t.states {
      var d := DeltaOf(t.states[FlowOf(s)], Reading(s));
      UpsertAdds(t.daily, DayKey(FlowOf(s), dayOf(TimeOf(s))), d, TimeOf(s), flow, c);
    }
  }

  /** What a sample counts for a flow, on a day or at all. */
  function Counts(states: map<Flow, Counters>, s: Sample, flow: Flow, c: Column, on: Text.Option<string>,
                  dayOf: int -> string): int
    requires StatesOK(states)
  {
    if Accepted(s) && FlowOf(s) == flow && flow in states && (on.None? || on.value == dayOf(TimeOf(s)))
    then Amount(DeltaOf(states[flow], Reading(s)), c) else 0
  }

  lemma ReadingsGrow(samples: seq<Sample>, flow: Flow)
    requires samples != []
    ensures var s := samples[|samples| - 1];
            Readings(samples, flow)
            == if Accepted(s) && FlowOf(s) == flow then Readings(samples[..|samples| - 1], flow) + [Reading(s)]
               else Readings(samples[..|samples| - 1], flow)
  {
  }

  lemma RecordStores(t: Tables, s: Sample, dayOf: int -> string)
    requires StatesOK(t.states)
    ensures Recorded(t, s, dayOf).states == if Accepted(s) then t.states[FlowOf(s) := Reading(s)] else t.states
  {
  }

  /** The stored counters are the last accepted reading. */
  lemma {:induction false} StateIsLastReading(samples: seq<Sample>, flow: Flow, dayOf: int -> string)
    ensures var r := Readings(samples, flow);
            flow in After(samples, dayOf).states <==> r != []
    ensures var r := Readings(samples, flow);
            r != [] ==> After(samples, dayOf).states[flow] == r[|r| - 1]
  {
    if samples != [] {
      var n := |samples| - 1;
      StateIsLastReading(samples[..n], flow, dayOf);
      RecordStores(After(samples[..n], dayOf), samples[n], dayOf);
      ReadingsGrow(samples, flow);
      hide Recorded, Readings, Accepted, FlowOf, Reading;
    }
  }

  lemma NextDifference(r: seq<Counters>, next: Counters, c: Column, on: Text.Option<string>, dayOf: int -> string)
    requires AllNonNegative(r) && AllNonNegative(r + [next])
    ensures Differences(r + [next], c, on, dayOf) == Differences(r, c, on, dayOf)
              + if r != [] && (on.None? || on.value == dayOf(next.sampleTime))
                then Amount(DeltaOf(r[|r| - 1], next), c) else 0
  {
    hide DeltaOf, Amount;
    var longer := r + [next];
    assert longer[..|r|] == r && longer[|r|] == next;
    assert r != [] ==> longer[|r| - 1] == r[|r| - 1];
  }

  lemma NextCounts(states: map<Flow, Counters>, r: seq<Counters>, s: Sample, flow: Flow, c: Column,
                   on: Text.Option<string>, dayOf: int -> string)
    requires StatesOK(states) && AllNonNegative(r) && (flow in states <==> r != [])
    requires r != [] ==> states[flow] == r[|r| - 1]
    ensures Accepted(s) && FlowOf(s) == flow ==> AllNonNegative(r + [Reading(s)])
    ensures Differences(if Accepted(s) && FlowOf(s) == flow then r + [Reading(s)] else r, c, on, dayOf)
            == Differences(r, c, on, dayOf) + Counts(states, s, flow, c, on, dayOf)
  {
    if Accepted(s) && FlowOf(s) == flow {
      assert AllNonNegative(r + [Reading(s)]);
      hide Differences, FlowOf, Accepted, DeltaOf, Amount;
      NextDifference(r, Reading(s), c, on, dayOf);
    }
  }

  lemma DifferencesGrow(samples: seq<Sample>, flow: Flow, c: Column, on: Text.Option<string>, dayOf: int -> string)
    requires samples != []
    ensures Differences(Readings(samples, flow), c, on, dayOf)
            == Differences(Readings(samples[..|samples| - 1], flow), c, on, dayOf)
               + Counts(After(samples[..|samples| - 1], dayOf).states, samples[|samples| - 1], flow, c, on, dayOf)
  {
    hide After, Counts, Accepted, FlowOf, Differences, Readings, AllNonNegative;
    var head, s := samples[..|samples| - 1], samples[|samples| - 1];
    StateIsLastReading(head, flow, dayOf);
    ReadingsGrow(samples, flow);
    assert AllNonNegative(Readings(samples, flow));
    NextCounts(After(head, dayOf).states, Readings(head, flow), s, flow, c, on, dayOf);
  }

  lemma RecordAddsToDay(t: Tables, s: Sample, dayOf: int -> string, flow: Flow, day: string, c: Column)
    requires Inv(t)
    ensures var after := Recorded(t, s, dayOf);
            (if DayKey(flow, day) in after.daily then Value(after.daily[DayKey(flow, day)], c) else 0)
            == (if DayKey(flow, day) in t.daily then Value(t.daily[DayKey(flow, day)], c) else 0)
               + Counts(t.states, s, flow, c, Text.Some(day), dayOf)
  {
  }

  /** Over any run of samples, the sum over a flow's days is the sum of the differences between its consecutive
      readings, for bytes received and sent, their total, and resets. */
  lemma {:induction false} TrafficIsConserved(samples: seq<Sample>, flow: Flow, c: Column, dayOf: int -> string)
    ensures var daily := After(samples, dayOf).daily;
            Sum(daily, DaysOf(daily, flow), c) == Differences(Readings(samples, flow), c, Text.None, dayOf)
  {
    if samples == [] {
      assert DaysOf(map[], flow) == {};
    } else {
      hide Differences, Readings, Sum, Recorded, Counts;
      var n := |samples| - 1;
      TrafficIsConserved(samples[..n], flow, c, dayOf);
      RecordAddsDifference(After(samples[..n], dayOf), samples[n], dayOf, flow, c);
      DifferencesGrow(samples, flow, c, Text.None, dayOf);
    }
  }

  /** And each day holds exactly the differences whose later reading falls on it. */
  lemma {:induction false} DayHoldsItsDifferences(samples: seq<Sample>, flow: Flow, day: string, c: Column,
                                                  dayOf: int -> string)
    ensures var daily := After(samples, dayOf).daily;
            (if DayKey(flow, day) in daily then Value(daily[DayKey(flow, day)], c) else 0)
              == Differences(Readings(samples, flow), c, Text.Some(day), dayOf)
  {
    if samples != [] {
      hide Differences, Readings, Recorded, Counts, Value;
      var n := |samples| - 1;
      DayHoldsItsDifferences(samples[..n], flow, day, c, dayOf);
      RecordAddsToDay(After(samples[..n], dayOf), samples[n], dayOf, flow, day, c);
      DifferencesGrow(samples, flow, c, Text.Some(day), dayOf);
    }
  }

  predicate ResetAt(r: seq<Counters>, i: int)
    requires 0 < i < |r|
  {
    Reset(r[i - 1], r[i])
  }

  predicate NoReset(r: seq<Counters>) {
    forall i | 0 < i < |r| :: !ResetAt(r, i)
  }

  /** Without a reset the sums telescope to last minus first. */
  lemma {:induction false} DifferencesTelescope(r: seq<Counters>, dayOf: int -> string)
    requires AllNonNegative(r) && r != [] && NoReset(r)
    ensures Differences(r, RX, Text.None, dayOf) == r[|r| - 1].rx - r[0].rx
    ensures Differences(r, TX, Text.None, dayOf) == r[|r| - 1].tx - r[0].tx
    ensures Differences(r, Resets, Text.None, dayOf) == 0
  {
    var n := |r| - 1;
    if n > 0 {
      assert !ResetAt(r, n);
      forall i | 0 < i < n ensures !ResetAt(r[..n], i) {
        assert !ResetAt(r, i);
      }
      DifferencesTelescope(r[..n], dayOf);
    }
  }

  /** The positions at which a reset is seen. */
  function ResetsAt(r: seq<Counters>): set<int> {
    set i | 0 < i < |r| && ResetAt(r, i)
  }

  lemma ResetsAtGrows(r: seq<Counters>)
    requires |r| > 1
    ensures |ResetsAt(r)| == |ResetsAt(r[..|r| - 1])| + if ResetAt(r, |r| - 1) then 1 else 0
  {
    hide Reset;
    var n := |r| - 1;
    forall i | 0 < i < n ensures ResetAt(r[..n], i) == ResetAt(r, i) {
      assert r[..n][i - 1] == r[i - 1] && r[..n][i] == r[i];
    }
    assert ResetsAt(r) == ResetsAt(r[..n]) + if ResetAt(r, n) then {n} else {};
  }

  lemma {:induction false} ResetsAreCounted(r: seq<Counters>, dayOf: int -> string)
    requires AllNonNegative(r)
    ensures Differences(r, Resets, Text.None, dayOf) == |ResetsAt(r)|
  {
    hide ResetsAt;
    var n := |r| - 1;
    if n > 0 {
      ResetsAreCounted(r[..n], dayOf);
      ResetsAtGrows(r);
      assert Amount(DeltaOf(r[n - 1], r[n]), Resets) == if ResetAt(r, n) then 1 else 0;
    } else {
      NoResetsYet(r);
    }
  }

  lemma NoResetsYet(r: seq<Counters>)
    requires |r| <= 1
    ensures ResetsAt(r) == {}
  {
  }

  // ---------------------------------------------------------------- what a sample does

  /** The flow that a sample is for, and the time it is taken at. */
  predicate IsFor(s: Sample, flow: Flow, at: int) {
    && Text.TrimSpace(s.device) == flow.device != ""
    && (if |TrimSpace(s.iface)| <= 64 then flow.iface == TrimSpace(s.iface) else flow.iface == TrimSpace(s.iface)[..64])
    && flow.iface != [] && s.rx >= 0 && s.tx >= 0
    && at == if 0 < s.sampleTime && s.now - 600_000 <= s.sampleTime <= s.now + 600_000 then s.sampleTime else s.now
  }

  /** The counters have gone on from the last ones, on a device that has not booted in between. */
  predicate GoesOn(last: Counters, s: Sample) {
    last.rx <= s.rx && last.tx <= s.tx
    && (Text.TrimSpace(s.bootId) == "" || last.bootId == "" || Text.TrimSpace(s.bootId) == last.bootId)
  }

  /** A sample that carries on adds its difference to its day, and nothing if there is none; one that does not
      adds a reset and no bytes; the first of a flow only sets the counters. */
  lemma SampleTakesEffect(t: Tables, s: Sample, dayOf: int -> string, flow: Flow, at: int)
    requires Inv(t) && IsFor(s, flow, at)
    ensures var after, key := Recorded(t, s, dayOf), DayKey(flow, dayOf(at));
            var row := if key in t.daily then t.daily[key] else Daily(0, 0, 0, 0, 0, at, at);
            && after.states == t.states[flow := Counters(Text.TrimSpace(s.bootId), s.rx, s.tx, at)]
            && after.daily ==
               if flow !in t.states then t.daily
               else
                 var last := t.states[flow];
                 var rx, tx := s.rx - last.rx, s.tx - last.tx;
                 if !GoesOn(last, s) then
                   t.daily[key := row.(samples := row.samples + 1, resets := row.resets + 1, lastSeen := at)]
                 else if rx + tx == 0 then t.daily
                 else
                   t.daily[key := Daily(row.rx + rx, row.tx + tx, row.total + rx + tx, row.samples + 1, row.resets,
                                        row.firstSeen, at)]
  {
    hide Text.TrimSpace, TrimSpace;
  }

  /** A sample without a device or an interface, or with a negative counter, changes nothing. */
  lemma OtherSamplesDoNothing(t: Tables, s: Sample, dayOf: int -> string)
    requires Inv(t) && (Text.TrimSpace(s.device) == "" || TrimSpace(s.iface) == [] || s.rx < 0 || s.tx < 0)
    ensures Recorded(t, s, dayOf) == t
  {
    hide Text.TrimSpace, TrimSpace;
  }

  /** One flow's samples since a boot: nothing but growing counters. */
  predicate Steady(samples: seq<Sample>, flow: Flow) {
    && (forall i | 0 <= i < |samples| :: IsFor(samples[i], flow, TimeOf(samples[i])))
    && (forall i | 0 < i < |samples| :: GoesOn(Reading(samples[i - 1]), samples[i]))
  }

  lemma {:induction false} SteadyReadings(samples: seq<Sample>, flow: Flow)
    requires Steady(samples, flow)
    ensures var r := Readings(samples, flow);
            |r| == |samples| && forall i | 0 <= i < |r| :: r[i] == Reading(samples[i])
  {
    if samples != [] {
      hide Text.TrimSpace, TrimSpace;
      var n := |samples| - 1;
      SteadyReadings(samples[..n], flow);
      assert IsFor(samples[n], flow, TimeOf(samples[n]));
    }
  }

  /** What is added up for a device that keeps counting is what its counters have grown by, with no reset. */
  lemma SteadySamplesAddUp(samples: seq<Sample>, flow: Flow, dayOf: int -> string)
    requires samples != [] && Steady(samples, flow)
    ensures var daily := After(samples, dayOf).daily;
            && Sum(daily, DaysOf(daily, flow), RX) == samples[|samples| - 1].rx - samples[0].rx
            && Sum(daily, DaysOf(daily, flow), TX) == samples[|samples| - 1].tx - samples[0].tx
            && Sum(daily, DaysOf(daily, flow), Resets) == 0
  {
    SteadyReadings(samples, flow);
    var r := Readings(samples, flow);
    forall i | 0 < i < |r| ensures !ResetAt(r, i) {
      assert GoesOn(Reading(samples[i - 1]), samples[i]);
    }
    DifferencesTelescope(r, dayOf);
    TrafficIsConserved(samples, flow, RX, dayOf);
    TrafficIsConserved(samples, flow, TX, dayOf);
    TrafficIsConserved(samples, flow, Resets, dayOf);
  }

  // ---------------------------------------------------------------- the code

  class DeviceTrafficService {
    const dayOf: int -> string
    var states: map<Flow, Counters>
    var daily: map<DayKey, Daily>

    ghost predicate Valid()
      reads this
    {
      Inv(Tables(states, daily))
    }

    constructor (dayOf: int -> string)
      ensures Valid() && states == map[] && daily == map[] && this.dayOf == dayOf
    {
      this.dayOf, states, daily := dayOf, map[], map[];
    }

    method UpsertDailyDelta(flow: Flow, sampleTime: int, rxDelta: int, txDelta: int, resetCount: int)
      modifies this`daily
      ensures daily == Upserted(old(daily), DayKey(flow, dayOf(sampleTime)), Delta(rxDelta, txDelta, resetCount),
                                sampleTime)
    {
      var totalDelta := rxDelta + txDelta;
      var key := DayKey(flow, dayOf(sampleTime));
      if key in daily {
        var row := daily[key];
        daily := daily[key := row.(rx := row.rx + rxDelta, tx := row.tx + txDelta, total := row.total + totalDelta,
                                   samples := row.samples + 1, resets := row.resets + resetCount,
                                   lastSeen := sampleTime)];
      } else {
        daily := daily[key := Daily(rxDelta, txDelta, totalDelta, 1, resetCount, sampleTime, sampleTime)];
      }
    }

    method RecordHeartbeatSample(s: Sample)
      requires Valid()
      modifies this
      ensures Valid() && Tables(states, daily) == Recorded(old(Tables(states, daily)), s, dayOf)
    {
      RecordKeepsInv(Tables(states, daily), s, dayOf);
      var device := Text.TrimSpace(s.device);
      if device == "" {
        return;
      }
      var iface := NormalizeInterface(s.iface);
      if iface == [] || s.rx < 0 || s.tx < 0 {
        return;
      }
      var flow := Flow(device, iface);
      var sampleTime := s.sampleTime;
      if sampleTime <= 0 {
        sampleTime := s.now;
      }
      if sampleTime < s.now - SAMPLE_SKEW || sampleTime > s.now + SAMPLE_SKEW {
        sampleTime := s.now;
      }
      var next := Counters(Text.TrimSpace(s.bootId), s.rx, s.tx, sampleTime);
      if flow !in states {
        states := states[flow := next];
        return;
      }
      var reset := Reset(states[flow], next);
      var rxDelta := s.rx - states[flow].rx;
      var txDelta := s.tx - states[flow].tx;
      if reset {
        rxDelta, txDelta := 0, 0;
      }
      if rxDelta > 0 || txDelta > 0 || reset {
        UpsertDailyDelta(flow, sampleTime, rxDelta, txDelta, if reset then 1 else 0);
      }
      states := states[flow := next];
    }
  }
}
