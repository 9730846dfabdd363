/**
 Upgrade tasks of devices and their states (services/device_upgrade_service.go). Each service call is one
 step. What the release and the device say about each other is abstract.
 */
module UpgradeTasks {
  import opened Sequences
  import opened Text

  const PENDING := 1
  const RUNNING := 2
  const SUCCESS := 3
  const FAILED := 4
  const CANCELED := 5

  const DEVICE_ONLINE := 2
  const DEVICE_DISABLED := 4

  const RUNNING_LEASE := 900_000

  datatype Device = Device(status: int, clientVersion: string)
  datatype Release = Release(guid: string, supported: bool, downloadURL: string)

  /** releaseMatchesDevice and releaseUpgradeDisabledReason, "" for no reason. */
  datatype Rules = Rules(matches: (Release, Device) -> bool, reason: (Release, Device) -> string)

  datatype Task = Task(device: string, batch: string, release: Release, url: string, status: int, progress: int,
                       downloaded: int, errorMessage: string, createTime: int, updateTime: int, startTime: int,
                       finishTime: int)

  type Tasks = map<string, Task>
  type Devices = map<string, Device>

  predicate Terminal(status: int) { status == SUCCESS || status == FAILED || status == CANCELED }

  predicate Active(t: Task) { t.status == PENDING || t.status == RUNNING }

  // ---------------------------------------------------------------- reports

  function ReportStatus(value: string): (status: int)
    ensures var word := Lower(TrimSpace(value));
            && (status == 2 <==> word == "running")
            && (status == 3 <==> word == "success" || word == "succeeded")
            && (status == 4 <==> word == "failed" || word == "error")
            && (status == 5 <==> word == "canceled" || word == "cancelled")
    ensures status in {0, RUNNING, SUCCESS, FAILED, CANCELED}
  {
    match Lower(TrimSpace(value))
    case "running" => RUNNING
    case "success" => SUCCESS
    case "succeeded" => SUCCESS
    case "failed" => FAILED
    case "error" => FAILED
    case "canceled" => CANCELED
    case "cancelled" => CANCELED
    case _ => 0
  }

  function ClampInt(value: int, low: int, high: int): int {
    if value < low then low else if value > high then high else value
  }

  function ReportProgress(status: int, progress: int, previous: int): (p: int)
    ensures status == RUNNING ==> 1 <= p <= 99
    ensures status == SUCCESS ==> p == 100
    ensures 0 <= p <= 100
    ensures status != SUCCESS && 1 <= progress <= 99 ==> p == progress
    ensures status in {RUNNING, FAILED, CANCELED} && progress <= 0 && 1 <= previous <= 99 ==> p == previous
  {
    if status == RUNNING then
      if progress <= 0 then if previous > 0 then (if previous < 99 then previous else 99) else 1
      else ClampInt(progress, 1, 99)
    else if status == SUCCESS then 100
    else if status == FAILED || status == CANCELED then
      if progress <= 0 then ClampInt(previous, 0, 100) else ClampInt(progress, 0, 100)
    else ClampInt(progress, 0, 100)
  }

  function ReportDownloaded(downloaded: int, previous: int): int {
    if downloaded < 0 || (downloaded == 0 && previous > 0) then previous else downloaded
  }

  datatype Request = Request(token: string, status: string, progress: int, downloaded: int, errorMessage: string)

  /** The columns that Report writes, computed from the task it has read, put on the row as it is now. */
  function Written(row: Task, seen: Task, r: Request, now: int): Task {
    var status := ReportStatus(r.status);
    row.(status := status,
         progress := ReportProgress(status, r.progress, seen.progress),
         downloaded := ReportDownloaded(r.downloaded, seen.downloaded),
         errorMessage := if status == FAILED then TrimSpace(r.errorMessage) else "",
         startTime := if status == RUNNING && seen.startTime == 0 then now else row.startTime,
         finishTime := if Terminal(status) then now else row.finishTime,
         updateTime := now)
  }

  function Reported(t: Task, tokenOk: bool, r: Request, now: int): Task {
    if TrimSpace(r.token) == "" || !tokenOk || ReportStatus(r.status) == 0 || Terminal(t.status) then t
    else Written(t, t, r, now)
  }

  // ---------------------------------------------------------------- new tasks

  datatype Refusal =
    | DeviceNotFound
    | NotOnline
    | Disabled
    | Unsupported
    | NoMatch
    | Unfit(reason: string)
    | HasActive
    | NoURL

  datatype Built = Ready(task: Task) | Refused(why: Refusal)

  function FirstNonEmpty(a: string, b: string): string {
    if TrimSpace(a) != "" then TrimSpace(a) else if TrimSpace(b) != "" then TrimSpace(b) else ""
  }

  /** buildTaskWithActiveSet; `active` says that the device has an active task. */
  function BuildTask(rules: Rules, guid: string, d: Device, release: Release, batch: string, url: string,
                     requireOnline: bool, active: bool, now: int): (b: Built)
    ensures b.Ready? ==> !active && b.task.device == guid && b.task.status == PENDING && TaskOK(b.task)
  {
    if requireOnline && d.status != DEVICE_ONLINE then Refused(NotOnline)
    else if d.status == DEVICE_DISABLED then Refused(Disabled)
    else if !release.supported then Refused(Unsupported)
    else if !rules.matches(release, d) then Refused(NoMatch)
    else if rules.reason(release, d) != "" then Refused(Unfit(rules.reason(release, d)))
    else if active then Refused(HasActive)
    else if FirstNonEmpty(release.downloadURL, url) == "" then Refused(NoURL)
    else
      Ready(Task(guid, TrimSpace(batch), release, FirstNonEmpty(release.downloadURL, url), PENDING, 0, 0, "", now,
                 now, 0, 0))
  }

  predicate HasActiveTask(tasks: Tasks, device: string) {
    exists id | id in tasks :: tasks[id].device == device && Active(tasks[id])
  }

  /** What CreateBatch makes of one requested guid. */
  function ForDevice(rules: Rules, tasks: Tasks, devices: Devices, release: Release, batch: string, url: string,
                     now: int, guid: string): Built {
    if guid !in devices then Refused(DeviceNotFound)
    else BuildTask(rules, guid, devices[guid], release, batch, url, true, HasActiveTask(tasks, guid), now)
  }

  /** The parts of a batch: the tasks to insert and the failures to report, in the order of the request. */
  datatype Plan = Plan(tasks: seq<Task>, failures: seq<(string, Refusal)>)

  function PlanFor(rules: Rules, tasks: Tasks, devices: Devices, release: Release, batch: string, url: string,
                   now: int, guids: seq<string>): Plan {
    if guids == [] then Plan([], [])
    else
      var guid := guids[|guids| - 1];
      var before := PlanFor(rules, tasks, devices, release, batch, url, now, guids[..|guids| - 1]);
      match ForDevice(rules, tasks, devices, release, batch, url, now, guid)
      case Ready(t) => before.(tasks := before.tasks + [t])
      case Refused(why) => before.(failures := before.failures + [(guid, why)])
  }

  function Inserted(tasks: Tasks, ids: seq<string>, added: seq<Task>): Tasks
    requires |ids| >= |added|
    decreases |added|
  {
    if added == [] then tasks
    else Inserted(tasks, ids, added[..|added| - 1])[ids[|added| - 1] := added[|added| - 1]]
  }

  predicate Fresh(tasks: Tasks, ids: seq<string>) {
    && (forall i | 0 <= i < |ids| :: ids[i] !in tasks)
    && (forall i, j | 0 <= i < j < |ids| :: ids[i] != ids[j])
  }

  // ---------------------------------------------------------------- uniqueTrimmedStrings

  function Unique(values: seq<string>): seq<string> {
    if values == [] then []
    else
      var before := Unique(values[..|values| - 1]);
      var value := TrimSpace(values[|values| - 1]);
      if value == "" || value in before then before else before + [value]
  }

  function Trimmings(values: seq<string>): set<string> {
    set i | 0 <= i < |values| :: TrimSpace(values[i])
  }

  lemma TrimmingsGrow(values: seq<string>)
    requires values != []
    ensures Trimmings(values) == Trimmings(values[..|values| - 1]) + {TrimSpace(values[|values| - 1])}
  {
    hide TrimSpace;
    var n := |values| - 1;
    assert forall i | 0 <= i < n :: values[..n][i] == values[i];
  }

  /** Every requested device once: the non-blank trimmed values, without repeats. */
  lemma {:induction false} UniqueIsTheRequest(values: seq<string>)
    ensures NoRepeats(Unique(values))
    ensures (set v | v in Unique(values)) == Trimmings(values) - {""}
  {
    if values != [] {
      var before := Unique(values[..|values| - 1]);
      UniqueIsTheRequest(values[..|values| - 1]);
      TrimmingsGrow(values);
      hide TrimSpace, Trimmings;
      var value := TrimSpace(values[|values| - 1]);
      assert value in before <==> value in set v | v in before;
      assert (set v | v in before + [value]) == (set v | v in before) + {value};
    } else {
      assert Trimmings(values) == {};
    }
  }

  lemma {:induction false} UniqueKeepsOrder(values: seq<string>, i: nat)
    requires i <= |values|
    ensures Unique(values[..i]) <= Unique(values)
  {
    var n := |values| - 1;
    if i == |values| {
      assert values[..i] == values;
    } else {
      assert values[..n][..i] == values[..i];
      UniqueKeepsOrder(values[..n], i);
    }
  }

  method UniqueTrimmedStrings(values: seq<string>) returns (result: seq<string>)
    ensures result == Unique(values)
  {
    var seen: set<string> := {};
    result := [];
    for i := 0 to |values|
      invariant result == Unique(values[..i]) && seen == set v | v in result
    {
      var value := TrimSpace(values[i]);
      assert values[..i + 1][..i] == values[..i];
      if value == "" || value in seen {
        continue;
      }
      seen := seen + {value};
      result := result + [value];
    }
    assert values[..|values|] == values;
  }

  // ---------------------------------------------------------------- what every task and every table keeps

  predicate TaskOK(t: Task) {
    && (t.status == PENDING ==> t.progress == 0 && t.startTime == 0)
    && (t.status == RUNNING ==> 1 <= t.progress <= 99 && t.startTime != 0)
    && (t.status == SUCCESS ==> t.progress == 100)
    && 0 <= t.progress <= 100
    && (Active(t) || Terminal(t.status))
    && (t.finishTime != 0 <==> Terminal(t.status))
  }

  ghost predicate OneActive(tasks: Tasks) {
    forall a, b | a in tasks && b in tasks && Active(tasks[a]) && Active(tasks[b])
      && tasks[a].device == tasks[b].device :: a == b
  }

  ghost predicate Inv(tasks: Tasks) {
    OneActive(tasks) && forall id | id in tasks :: TaskOK(tasks[id])
  }

  /** What may become of a task: its origin is fixed, its end is final, it does not go back to pending, and it
      starts once. */
  predicate Evolves(a: Task, b: Task) {
    && b.device == a.device && b.batch == a.batch && b.release == a.release && b.url == a.url
      && b.createTime == a.createTime
    && (Terminal(a.status) ==> b == a)
    && (b.status == PENDING ==> b == a)
    && (a.startTime != 0 ==> b.startTime == a.startTime)
  }

  lemma EvolvesTransitive(a: Task, b: Task, c: Task)
    requires Evolves(a, b) && Evolves(b, c)
    ensures Evolves(a, c)
  {
  }

  lemma ReportEvolves(t: Task, tokenOk: bool, r: Request, now: int)
    requires TaskOK(t) && now > 0
    ensures TaskOK(Reported(t, tokenOk, r, now)) && Evolves(t, Reported(t, tokenOk, r, now))
    ensures Active(Reported(t, tokenOk, r, now)) ==> Active(t)
  {
  }

  /** Changing one task into something it may become, active only if it was, keeps the table in order. */
  lemma UpdateKeepsInv(tasks: Tasks, id: string, t: Task)
    requires Inv(tasks) && id in tasks && TaskOK(t) && Evolves(tasks[id], t) && (Active(t) ==> Active(tasks[id]))
    ensures Inv(tasks[id := t])
  {
  }

  lemma InsertKeepsInv(tasks: Tasks, id: string, t: Task)
    requires Inv(tasks) && id !in tasks && TaskOK(t) && !HasActiveTask(tasks, t.device)
    ensures Inv(tasks[id := t])
    ensures forall d | d != t.device :: HasActiveTask(tasks[id := t], d) <==> HasActiveTask(tasks, d)
  {
    var after := tasks[id := t];
    forall d | d != t.device ensures HasActiveTask(after, d) <==> HasActiveTask(tasks, d) {
      if HasActiveTask(tasks, d) {
        var i :| i in tasks && tasks[i].device == d && Active(tasks[i]);
        assert after[i] == tasks[i];
      }
      if HasActiveTask(after, d) {
        var i :| i in after && after[i].device == d && Active(after[i]);
        assert tasks[i] == after[i];
      }
    }
  }

  // ---------------------------------------------------------------- batches

  function DevicesOf(added: seq<Task>): seq<string> {
    seq(|added|, i requires 0 <= i < |added| => added[i].device)
  }

  function FailedOf(failures: seq<(string, Refusal)>): seq<string> {
    seq(|failures|, i requires 0 <= i < |failures| => failures[i].0)
  }

  lemma OneMore(p: Plan, made: Built, guid: string, rest: multiset<string>)
    requires made.Ready? ==> made.task.device == guid
    requires multiset(DevicesOf(p.tasks)) + multiset(FailedOf(p.failures)) == rest
    ensures match made
            case Ready(t) =>
              multiset(DevicesOf(p.tasks + [t])) + multiset(FailedOf(p.failures)) == rest + multiset{guid}
            case Refused(why) =>
              multiset(DevicesOf(p.tasks)) + multiset(FailedOf(p.failures + [(guid, why)])) == rest + multiset{guid}
  {
    match made
    case Ready(t) => assert DevicesOf(p.tasks + [t]) == DevicesOf(p.tasks) + [guid];
    case Refused(why) => assert FailedOf(p.failures + [(guid, why)]) == FailedOf(p.failures) + [guid];
  }

  /** The tasks and the failures of a batch are together the requested devices, each as often as requested. */
  lemma {:induction false} BatchCoversRequest(rules: Rules, tasks: Tasks, devices: Devices, release: Release,
                                              batch: string, url: string, now: int, guids: seq<string>)
    ensures var p := PlanFor(rules, tasks, devices, release, batch, url, now, guids);
            multiset(DevicesOf(p.tasks)) + multiset(FailedOf(p.failures)) == multiset(guids)
  {
    if guids != [] {
      var n := |guids| - 1;
      BatchCoversRequest(rules, tasks, devices, release, batch, url, now, guids[..n]);
      var before := PlanFor(rules, tasks, devices, release, batch, url, now, guids[..n]);
      OneMore(before, ForDevice(rules, tasks, devices, release, batch, url, now, guids[n]), guids[n],
              multiset(guids[..n]));
      hide ForDevice, DevicesOf, FailedOf;
      assert guids == guids[..n] + [guids[n]];
    }
  }

  /** A planned task is the one built for its device, and a failure gives the reason why none is. */
  lemma {:induction false} PlanIsBuilt(rules: Rules, tasks: Tasks, devices: Devices, release: Release, batch: string,
                                       url: string, now: int, guids: seq<string>)
    ensures var p := PlanFor(rules, tasks, devices, release, batch, url, now, guids);
            && (forall t | t in p.tasks ::
              ForDevice(rules, tasks, devices, release, batch, url, now, t.device) == Ready(t))
            && (forall f | f in p.failures ::
              ForDevice(rules, tasks, devices, release, batch, url, now, f.0) == Refused(f.1))
  {
    if guids != [] {
      var n := |guids| - 1;
      PlanIsBuilt(rules, tasks, devices, release, batch, url, now, guids[..n]);
      var made := ForDevice(rules, tasks, devices, release, batch, url, now, guids[n]);
      assert made.Ready? ==> made.task.device == guids[n];
      hide ForDevice;
    }
  }

  lemma PlannedAreApart(rules: Rules, tasks: Tasks, devices: Devices, release: Release, batch: string,
                        url: string, now: int, guids: seq<string>)
    requires NoRepeats(guids)
    ensures NoRepeats(DevicesOf(PlanFor(rules, tasks, devices, release, batch, url, now, guids).tasks))
  {
    hide PlanFor;
    BatchCoversRequest(rules, tasks, devices, release, batch, url, now, guids);
    var q := DevicesOf(PlanFor(rules, tasks, devices, release, batch, url, now, guids).tasks);
    forall v ensures multiset(q)[v] <= 1 {
      AtMostOnce(guids, v);
    }
    OnceEach(q);
  }

  lemma {:induction false} AtMostOnce(q: seq<string>, v: string)
    requires NoRepeats(q)
    ensures multiset(q)[v] <= 1
  {
    if q != [] {
      var n := |q| - 1;
      assert q == q[..n] + [q[n]];
      AtMostOnce(q[..n], v);
      assert v == q[n] ==> v !in q[..n];
    }
  }

  lemma OnceEach(q: seq<string>)
    requires forall v :: multiset(q)[v] <= 1
    ensures NoRepeats(q)
  {
    forall i, j | 0 <= i < j < |q| ensures q[i] != q[j] {
      assert q == q[..j] + [q[j]] + q[j + 1..];
      assert q[i] == q[..j][i] && q[i] in multiset(q[..j]);
      assert multiset(q)[q[j]] <= 1;
      assert multiset(q) == multiset(q[..j]) + multiset{q[j]} + multiset(q[j + 1..]);
    }
  }

  lemma {:induction false} InsertAllKeepsInv(tasks: Tasks, ids: seq<string>, added: seq<Task>)
    requires Inv(tasks) && |ids| >= |added| && Fresh(tasks, ids) && NoRepeats(DevicesOf(added))
    requires forall t | t in added :: TaskOK(t) && !HasActiveTask(tasks, t.device)
    ensures var after := Inserted(tasks, ids, added);
            && Inv(after)
            && (forall id | id in after :: id in tasks || id in ids[..|added|])
            && (forall id | id in tasks :: id in after && after[id] == tasks[id])
            && (forall d | d !in DevicesOf(added) :: HasActiveTask(after, d) <==> HasActiveTask(tasks, d))
    decreases |added|
  {
    if added != [] {
      var n := |added| - 1;
      var t, some := added[n], added[..n];
      assert DevicesOf(some) == DevicesOf(added)[..n];
      InsertAllKeepsInv(tasks, ids, some);
      assert t in added && DevicesOf(added)[n] == t.device;
      assert t.device !in DevicesOf(some);
      assert ids[n] !in ids[..n];
      InsertKeepsInv(Inserted(tasks, ids, some), ids[n], t);
      assert ids[..n + 1] == ids[..n] + [ids[n]];
      assert DevicesOf(added) == DevicesOf(some) + [t.device];
    }
  }

  // ---------------------------------------------------------------- the steps of the service

  datatype State = State(tasks: Tasks, devices: Devices)

  /** A missing release stands for one that does not exist or is not enabled; `pick` is the task that the
      query of PendingCommand finds, the oldest deliverable one. */
  datatype Step =
    | CreateTask(device: string, release: Option<Release>, url: string, id: string, now: int)
    | CreateBatch(requested: seq<string>, release: Option<Release>, batch: string, url: string, ids: seq<string>,
                  now: int)
    | PendingCommand(device: string, pick: Option<string>, now: int)
    | Report(id: string, tokenOk: bool, request: Request, now: int)
    | SetDevice(guid: string, record: Device, now: int)
    | RemoveDevice(guid: string, now: int)

  predicate Deliverable(t: Task, device: string, now: int) {
    t.device == device && (t.status == PENDING || (t.status == RUNNING && t.updateTime < now - RUNNING_LEASE))
  }

  predicate Picks(tasks: Tasks, device: string, now: int, pick: Option<string>) {
    match pick
    case None => forall id | id in tasks :: !Deliverable(tasks[id], device, now)
    case Some(id) =>
      && id in tasks && Deliverable(tasks[id], device, now)
      && forall i | i in tasks && Deliverable(tasks[i], device, now) :: tasks[id].createTime <= tasks[i].createTime
  }

  predicate Possible(s: State, a: Step) {
    a.now > 0 &&
    match a
    case CreateTask(_, _, _, id, _) => id !in s.tasks
    case CreateBatch(requested, _, _, _, ids, _) => |ids| >= |requested| && Fresh(s.tasks, ids)
    case PendingCommand(device, pick, now) => Picks(s.tasks, TrimSpace(device), now, pick)
    case _ => true
  }

  function Created(rules: Rules, s: State, raw: string, release: Option<Release>, url: string, id: string,
                   now: int): Tasks
  {
    var guid := TrimSpace(raw);
    if guid == "" || guid !in s.devices || release.None? then s.tasks
    else
      match BuildTask(rules, guid, s.devices[guid], release.value, "", url, false, HasActiveTask(s.tasks, guid), now)
      case Ready(t) => s.tasks[id := t]
      case Refused(_) => s.tasks
  }

  function BatchPlan(rules: Rules, s: State, requested: seq<string>, release: Release, batch: string, url: string,
                     now: int): Plan
  {
    PlanFor(rules, s.tasks, s.devices, release, batch, url, now, Unique(requested))
  }

  lemma {:induction false} PlanFits(rules: Rules, tasks: Tasks, devices: Devices, release: Release, batch: string,
                                    url: string, now: int, guids: seq<string>)
    ensures |PlanFor(rules, tasks, devices, release, batch, url, now, guids).tasks| <= |guids|
  {
    if guids != [] {
      PlanFits(rules, tasks, devices, release, batch, url, now, guids[..|guids| - 1]);
    }
  }

  lemma {:induction false} UniqueFits(values: seq<string>)
    ensures |Unique(values)| <= |values|
  {
    if values != [] {
      UniqueFits(values[..|values| - 1]);
    }
  }

  /** A batch whose every device fails, or that names none, inserts nothing at all. */
  function BatchCreated(rules: Rules, s: State, requested: seq<string>, release: Option<Release>, batch: string,
                        url: string, ids: seq<string>, now: int): Tasks
    requires |ids| >= |requested|
  {
    if release.None? || !release.value.supported then s.tasks
    else
      var plan := BatchPlan(rules, s, requested, release.value, batch, url, now);
      UniqueFits(requested);
      PlanFits(rules, s.tasks, s.devices, release.value, batch, url, now, Unique(requested));
      Inserted(s.tasks, ids, plan.tasks)
  }

  /** The release of the task still suits its device, or the device is not known any more. */
  predicate Fits(rules: Rules, s: State, id: string)
    requires id in s.tasks
  {
    var t := s.tasks[id];
    t.device in s.devices ==> rules.reason(t.release, s.devices[t.device]) == ""
  }

  /** A task picked for a device that no longer fits fails at once; otherwise picking changes nothing. */
  function Picked(rules: Rules, s: State, pick: Option<string>, now: int): Tasks {
    if pick.None? || pick.value !in s.tasks then s.tasks
    else
      var t := s.tasks[pick.value];
      if t.device !in s.devices || rules.reason(t.release, s.devices[t.device]) == "" then s.tasks
      else
        s.tasks[pick.value := t.(status := FAILED, errorMessage := rules.reason(t.release, s.devices[t.device]),
                                 finishTime := now, updateTime := now)]
  }

  function Apply(rules: Rules, s: State, a: Step): State
    requires Possible(s, a)
  {
    match a
    case CreateTask(device, release, url, id, now) => s.(tasks := Created(rules, s, device, release, url, id, now))
    case CreateBatch(requested, release, batch, url, ids, now) =>
      s.(tasks := BatchCreated(rules, s, requested, release, batch, url, ids, now))
    case PendingCommand(_, pick, now) => s.(tasks := Picked(rules, s, pick, now))
    case Report(raw, tokenOk, request, now) =>
      var id := TrimSpace(raw);
      if id != "" && id in s.tasks then s.(tasks := s.tasks[id := Reported(s.tasks[id], tokenOk, request, now)]) else s
    case SetDevice(guid, record, _) => s.(devices := s.devices[guid := record])
    case RemoveDevice(guid, _) => s.(devices := s.devices - {guid})
  }

  lemma BatchKeepsInv(rules: Rules, s: State, requested: seq<string>, release: Option<Release>, batch: string,
                      url: string, ids: seq<string>, now: int)
    requires Inv(s.tasks) && |ids| >= |requested| && Fresh(s.tasks, ids)
    ensures var after := BatchCreated(rules, s, requested, release, batch, url, ids, now);
            Inv(after) && forall id | id in s.tasks :: id in after && after[id] == s.tasks[id]
  {
    if release.Some? && release.value.supported {
      hide TaskOK, Inv, HasActiveTask, PlanFor, Unique;
      var guids := Unique(requested);
      UniqueIsTheRequest(requested);
      UniqueFits(requested);
      PlanFits(rules, s.tasks, s.devices, release.value, batch, url, now, guids);
      PlanIsBuilt(rules, s.tasks, s.devices, release.value, batch, url, now, guids);
      PlannedAreApart(rules, s.tasks, s.devices, release.value, batch, url, now, guids);
      InsertAllKeepsInv(s.tasks, ids, BatchPlan(rules, s, requested, release.value, batch, url, now).tasks);
    }
  }

  lemma CreateKeepsInv(rules: Rules, s: State, raw: string, release: Option<Release>, url: string, id: string, now: int)
    requires Inv(s.tasks) && id !in s.tasks
    ensures var after := Created(rules, s, raw, release, url, id, now);
            Inv(after) && forall i | i in s.tasks :: i in after && after[i] == s.tasks[i]
  {
  }

  /** Every step keeps at most one pending or running task a device, and the ranges of progress and times. */
  lemma StepKeepsInv(rules: Rules, s: State, a: Step)
    requires Inv(s.tasks) && Possible(s, a)
    ensures Inv(Apply(rules, s, a).tasks)
    ensures var t := Apply(rules, s, a);
            forall id | id in s.tasks :: id in t.tasks && Evolves(s.tasks[id], t.tasks[id])
  {
    hide Reported, BatchCreated, Created;
    match a
    case CreateTask(device, release, url, id, now) => CreateKeepsInv(rules, s, device, release, url, id, now);
    case CreateBatch(requested, release, batch, url, ids, now) =>
      BatchKeepsInv(rules, s, requested, release, batch, url, ids, now);
    case PendingCommand(_, pick, now) =>
      if pick.Some? {
        var after := Picked(rules, s, pick, now);
        assert TaskOK(s.tasks[pick.value]);
        UpdateKeepsInv(s.tasks, pick.value, after[pick.value]);
        assert s.tasks[pick.value := s.tasks[pick.value]] == s.tasks;
      }
    case Report(raw, tokenOk, request, now) =>
      var id := TrimSpace(raw);
      if id in s.tasks {
        ReportEvolves(s.tasks[id], tokenOk, request, now);
        UpdateKeepsInv(s.tasks, id, Reported(s.tasks[id], tokenOk, request, now));
      }
    case SetDevice(_, _, _) =>
    case RemoveDevice(_, _) =>
  }

  ghost predicate Run(rules: Rules, s: State, steps: seq<Step>, t: State)
    decreases |steps|
  {
    if steps == [] then t == s else Possible(s, steps[0]) && Run(rules, Apply(rules, s, steps[0]), steps[1..], t)
  }

  /** Over every run: the table stays in order, no task is lost, ended tasks never change, none goes back to
      pending, and none starts twice. */
  lemma {:induction false} TasksOnlyEvolve(rules: Rules, s: State, steps: seq<Step>, t: State)
    requires Inv(s.tasks) && Run(rules, s, steps, t)
    ensures Inv(t.tasks) && forall id | id in s.tasks :: id in t.tasks && Evolves(s.tasks[id], t.tasks[id])
    decreases |steps|
  {
    if steps != [] {
      var mid := Apply(rules, s, steps[0]);
      StepKeepsInv(rules, s, steps[0]);
      TasksOnlyEvolve(rules, mid, steps[1..], t);
      forall id | id in s.tasks ensures id in t.tasks && Evolves(s.tasks[id], t.tasks[id]) {
        EvolvesTransitive(s.tasks[id], mid.tasks[id], t.tasks[id]);
      }
    }
  }

  /** The task that PendingCommand finds is the device's one active task, so the order of the query never
      decides between two; a running one is not handed out again within its lease. */
  lemma PickIsTheActiveTask(s: State, device: string, now: int, id: string)
    requires Inv(s.tasks) && Picks(s.tasks, device, now, Some(id))
    ensures forall i | i in s.tasks && s.tasks[i].device == device && Active(s.tasks[i]) :: i == id
    ensures s.tasks[id].status == RUNNING ==> now > s.tasks[id].updateTime + RUNNING_LEASE
  {
  }

  // ---------------------------------------------------------------- calls that interleave

  /** What a call has decided from what it has read, and has not written yet: Report and PendingCommand write by
      the guid of the task alone, and new tasks are inserted after the active ones have been looked for. */
  datatype Intent =
    | ReportIntent(id: string, seen: Task, request: Request)
    | FailIntent(id: string, reason: string)
    | InsertIntent(added: seq<Task>)

  datatype Mixed = Mixed(tasks: Tasks, devices: Devices, intents: seq<Intent>)

  /** The reading part of a call, or the write of an intent. A batch reads for all its devices at once. */
  datatype MixedStep =
    | ReadReport(taskGuid: string, tokenOk: bool, request: Request)
    | ReadPending(device: string, id: string, now: int)
    | ReadCreate(device: string, release: Release, url: string, now: int)
    | ReadBatch(requested: seq<string>, release: Release, batch: string, url: string, now: int)
    | Land(which: nat, ids: seq<string>, now: int)
    | ChangeDevices(devices: Devices)

  function FailWritten(row: Task, reason: string, now: int): Task {
    row.(status := FAILED, errorMessage := reason, finishTime := now, updateTime := now)
  }

  predicate GoesOn(t: Task, tokenOk: bool, r: Request) {
    TrimSpace(r.token) != "" && tokenOk && ReportStatus(r.status) != 0 && !Terminal(t.status)
  }

  predicate MixedPossible(rules: Rules, s: Mixed, a: MixedStep) {
    match a
    case ReadReport(raw, tokenOk, r) =>
      var id := TrimSpace(raw);
      id != "" && id in s.tasks && GoesOn(s.tasks[id], tokenOk, r)
    case ReadPending(device, id, now) =>
      && Picks(s.tasks, TrimSpace(device), now, Some(id)) && s.tasks[id].device in s.devices
      && rules.reason(s.tasks[id].release, s.devices[s.tasks[id].device]) != ""
    case ReadCreate(raw, release, url, now) =>
      var guid := TrimSpace(raw);
      && guid != "" && guid in s.devices
      && BuildTask(rules, guid, s.devices[guid], release, "", url, false, HasActiveTask(s.tasks, guid), now).Ready?
    case ReadBatch(_, _, _, _, _) => true
    case Land(i, ids, now) =>
      now > 0 && i < |s.intents| && (s.intents[i].InsertIntent? ==>
        |ids| >= |s.intents[i].added| && Fresh(s.tasks, ids))
    case ChangeDevices(_) => true
  }

  function Landed(tasks: Tasks, intent: Intent, ids: seq<string>, now: int): Tasks
    requires intent.InsertIntent? ==> |ids| >= |intent.added|
  {
    match intent
    case ReportIntent(id, seen, r) => if id in tasks then tasks[id := Written(tasks[id], seen, r, now)] else tasks
    case FailIntent(id, reason) => if id in tasks then tasks[id := FailWritten(tasks[id], reason, now)] else tasks
    case InsertIntent(added) => Inserted(tasks, ids, added)
  }

  function MixedApply(rules: Rules, s: Mixed, a: MixedStep): Mixed
    requires MixedPossible(rules, s, a)
  {
    match a
    case ReadReport(raw, _, r) =>
      s.(intents := s.intents + [ReportIntent(TrimSpace(raw), s.tasks[TrimSpace(raw)], r)])
    case ReadPending(_, id, _) =>
      s.(intents := s.intents + [FailIntent(id, rules.reason(s.tasks[id].release, s.devices[s.tasks[id].device]))])
    case ReadCreate(raw, release, url, now) =>
      var guid := TrimSpace(raw);
      var built := BuildTask(rules, guid, s.devices[guid], release, "", url, false, HasActiveTask(s.tasks, guid), now);
      s.(intents := s.intents + [InsertIntent([built.task])])
    case ReadBatch(requested, release, batch, url, now) =>
      var plan := PlanFor(rules, s.tasks, s.devices, release, batch, url, now, Unique(requested));
      s.(intents := s.intents + [InsertIntent(plan.tasks)])
    case Land(i, ids, now) =>
      s.(tasks := Landed(s.tasks, s.intents[i], ids, now), intents := s.intents[..i] + s.intents[i + 1..])
    case ChangeDevices(devices) => s.(devices := devices)
  }

  /** A write that does no harm when it comes. A report: it changes nothing, or the row has not ended and the
      report does not start it a second time. A refusal: the row has not ended, or it changes nothing. New tasks:
      none of their devices has an active task by now. */
  predicate Harmless(tasks: Tasks, intent: Intent, now: int) {
    match intent
    case ReportIntent(id, seen, r) =>
      id in tasks ==>
        || Written(tasks[id], seen, r, now) == tasks[id]
        || (!Terminal(tasks[id].status) && !StartsAgain(tasks[id], seen, r, now))
    case FailIntent(id, reason) =>
      id in tasks ==> !Terminal(tasks[id].status) || FailWritten(tasks[id], reason, now) == tasks[id]
    case InsertIntent(added) => forall t | t in added :: !HasActiveTask(tasks, t.device)
  }

  predicate StartsAgain(row: Task, seen: Task, r: Request, now: int) {
    ReportStatus(r.status) == RUNNING && seen.startTime == 0 && row.startTime != 0 && row.startTime != now
  }

  /** A report that was computed from an earlier state of its row keeps the row in order, and only lets it evolve,
      if and only if it changes nothing, or the row has not ended and is not started a second time. */
  lemma LateReportIsFineIff(row: Task, seen: Task, r: Request, now: int)
    requires TaskOK(row) && TaskOK(seen) && Evolves(seen, row) && now > 0
    requires ReportStatus(r.status) != 0 && !Terminal(seen.status)
    ensures (Evolves(row, Written(row, seen, r, now)) && TaskOK(Written(row, seen, r, now)))
            <==> Written(row, seen, r, now) == row || (!Terminal(row.status) && !StartsAgain(row, seen, r, now))
  {
  }

  /** The table is in order, no task of before is lost, and all have only evolved. */
  ghost predicate Keeps(before: Tasks, after: Tasks) {
    Inv(after) && forall id | id in before :: id in after && Evolves(before[id], after[id])
  }

  /** What an intent still knows about the table. */
  ghost predicate IntentOK(tasks: Tasks, intent: Intent) {
    match intent
    case ReportIntent(id, seen, r) =>
      ReportStatus(r.status) != 0 && !Terminal(seen.status) && TaskOK(seen) && id in tasks && Evolves(seen, tasks[id])
    case FailIntent(id, _) => id in tasks
    case InsertIntent(added) =>
      NoRepeats(DevicesOf(added)) && forall t | t in added :: TaskOK(t) && t.status == PENDING
  }

  ghost predicate MixedInv(s: Mixed) {
    Inv(s.tasks) && forall intent | intent in s.intents :: IntentOK(s.tasks, intent)
  }

  lemma UpdateKeepsIff(tasks: Tasks, id: string, t: Task)
    requires Inv(tasks) && id in tasks
    ensures Keeps(tasks, tasks[id := t]) <==> Evolves(tasks[id], t) && TaskOK(t)
  {
    var after := tasks[id := t];
    if Evolves(tasks[id], t) && TaskOK(t) {
      assert TaskOK(tasks[id]);
      UpdateKeepsInv(tasks, id, t);
    }
    if Keeps(tasks, after) {
      assert after[id] == t;
    }
  }

  lemma FailIsFineIff(row: Task, reason: string, now: int)
    requires TaskOK(row) && now > 0
    ensures Evolves(row, FailWritten(row, reason, now)) && TaskOK(FailWritten(row, reason, now))
            <==> !Terminal(row.status) || FailWritten(row, reason, now) == row
  {
  }

  lemma InsertKeepsIff(tasks: Tasks, ids: seq<string>, added: seq<Task>, now: int)
    requires Inv(tasks) && |ids| >= |added| && Fresh(tasks, ids) && IntentOK(tasks, InsertIntent(added))
    ensures Keeps(tasks, Inserted(tasks, ids, added)) <==> Harmless(tasks, InsertIntent(added), now)
  {
    var after := Inserted(tasks, ids, added);
    InsertedHas(tasks, ids, added);
    if Harmless(tasks, InsertIntent(added), now) {
      InsertAllKeepsInv(tasks, ids, added);
    } else {
      var t :| t in added && HasActiveTask(tasks, t.device);
      var i :| 0 <= i < |added| && added[i] == t;
      var id :| id in tasks && tasks[id].device == t.device && Active(tasks[id]);
      assert after[ids[i]] == t && after[id] == tasks[id] && id != ids[i];
      assert !OneActive(after);
    }
  }

  lemma {:induction false} InsertedHas(tasks: Tasks, ids: seq<string>, added: seq<Task>)
    requires |ids| >= |added| && Fresh(tasks, ids)
    ensures var after := Inserted(tasks, ids, added);
            && (forall id | id in tasks :: id in after && after[id] == tasks[id])
            && (forall i | 0 <= i < |added| :: ids[i] in after && after[ids[i]] == added[i])
    decreases |added|
  {
    if added != [] {
      InsertedHas(tasks, ids, added[..|added| - 1]);
    }
  }

  /** The write of one intent keeps the table, and lets tasks only evolve, if and only if it is harmless. */
  lemma LandingKeepsIff(tasks: Tasks, intent: Intent, ids: seq<string>, now: int)
    requires Inv(tasks) && IntentOK(tasks, intent) && now > 0
    requires intent.InsertIntent? ==> |ids| >= |intent.added| && Fresh(tasks, ids)
    ensures Keeps(tasks, Landed(tasks, intent, ids, now)) <==> Harmless(tasks, intent, now)
  {
    match intent
    case ReportIntent(id, seen, r) =>
      UpdateKeepsIff(tasks, id, Written(tasks[id], seen, r, now));
      LateReportIsFineIff(tasks[id], seen, r, now);
    case FailIntent(id, reason) =>
      UpdateKeepsIff(tasks, id, FailWritten(tasks[id], reason, now));
      FailIsFineIff(tasks[id], reason, now);
    case InsertIntent(added) => InsertKeepsIff(tasks, ids, added, now);
  }

  predicate HarmlessStep(rules: Rules, s: Mixed, a: MixedStep)
    requires MixedPossible(rules, s, a)
  {
    a.Land? ==> Harmless(s.tasks, s.intents[a.which], a.now)
  }

  lemma IntentStaysOK(before: Tasks, after: Tasks, intent: Intent)
    requires Keeps(before, after) && IntentOK(before, intent)
    ensures IntentOK(after, intent)
  {
    if intent.ReportIntent? {
      EvolvesTransitive(intent.seen, before[intent.id], after[intent.id]);
    }
  }

  lemma NewIntentIsOK(rules: Rules, s: Mixed, a: MixedStep, intent: Intent)
    requires MixedInv(s) && MixedPossible(rules, s, a) && !a.Land?
    requires intent in MixedApply(rules, s, a).intents
    ensures IntentOK(s.tasks, intent)
  {
    if intent !in s.intents && a.ReadBatch? {
      var guids := Unique(a.requested);
      UniqueIsTheRequest(a.requested);
      PlannedAreApart(rules, s.tasks, s.devices, a.release, a.batch, a.url, a.now, guids);
      PlanIsBuilt(rules, s.tasks, s.devices, a.release, a.batch, a.url, a.now, guids);
    }
  }

  /** A step of any call keeps the table, and lets tasks only evolve, if and only if it is no write that does
      harm. */
  lemma MixedStepKeepsIff(rules: Rules, s: Mixed, a: MixedStep)
    requires MixedInv(s) && MixedPossible(rules, s, a)
    ensures Keeps(s.tasks, MixedApply(rules, s, a).tasks) <==> HarmlessStep(rules, s, a)
    ensures HarmlessStep(rules, s, a) ==> MixedInv(MixedApply(rules, s, a))
  {
    hide IntentOK, Harmless, Landed;
    var t := MixedApply(rules, s, a);
    if a.Land? {
      assert s.intents[a.which] in s.intents;
      LandingKeepsIff(s.tasks, s.intents[a.which], a.ids, a.now);
      if HarmlessStep(rules, s, a) {
        forall intent | intent in t.intents ensures IntentOK(t.tasks, intent) {
          assert intent in s.intents;
          IntentStaysOK(s.tasks, t.tasks, intent);
        }
      }
    } else {
      forall intent | intent in t.intents ensures IntentOK(t.tasks, intent) {
        NewIntentIsOK(rules, s, a, intent);
      }
    }
  }

  predicate MixedRun(rules: Rules, s: Mixed, steps: seq<MixedStep>)
    decreases |steps|
  {
    steps == [] || (MixedPossible(rules, s, steps[0]) && MixedRun(rules, MixedApply(rules, s, steps[0]), steps[1..]))
  }

  ghost predicate KeepsThroughout(rules: Rules, s: Mixed, steps: seq<MixedStep>)
    requires MixedRun(rules, s, steps)
    decreases |steps|
  {
    steps != [] ==>
      var t := MixedApply(rules, s, steps[0]);
      Keeps(s.tasks, t.tasks) && KeepsThroughout(rules, t, steps[1..])
  }

  predicate HarmlessThroughout(rules: Rules, s: Mixed, steps: seq<MixedStep>)
    requires MixedRun(rules, s, steps)
    decreases |steps|
  {
    steps != [] ==>
      HarmlessStep(rules, s, steps[0]) && HarmlessThroughout(rules, MixedApply(rules, s, steps[0]), steps[1..])
  }

  /** Over every interleaving of calls: at most one active task a device, ended tasks that never change, no task
      back to pending or started twice, if and only if every write is harmless when it comes. */
  lemma {:induction false} MixedKeepsIffHarmless(rules: Rules, s: Mixed, steps: seq<MixedStep>)
    requires MixedInv(s) && MixedRun(rules, s, steps)
    ensures KeepsThroughout(rules, s, steps) <==> HarmlessThroughout(rules, s, steps)
    decreases |steps|
  {
    if steps != [] {
      hide MixedInv, MixedApply, MixedPossible, Keeps, HarmlessStep;
      MixedStepKeepsIff(rules, s, steps[0]);
      if HarmlessStep(rules, s, steps[0]) {
        MixedKeepsIffHarmless(rules, MixedApply(rules, s, steps[0]), steps[1..]);
      }
    }
  }

  /** An ended task is opened again by a report that was computed before it ended. */
  lemma LateReportReopens(t: Task, now: int)
    requires t.status == RUNNING && TaskOK(t) && now > 0
    ensures var done := Request("t", "success", 0, 0, "");
            var late := Request("t", "running", 50, 0, "");
            var ended := Written(t, t, done, now);
            && Terminal(ended.status) && Written(ended, t, late, now).status == RUNNING
            && !TaskOK(Written(ended, t, late, now)) && Reported(ended, true, late, now) == ended
  {
    assert Lower(TrimSpace("success")) == "success";
    assert Lower(TrimSpace("running")) == "running";
  }

  /** A task that never ended is started twice by two reports computed while it was pending. */
  lemma LateReportStartsAgain(t: Task)
    requires t.status == PENDING && TaskOK(t)
    ensures var r := Request("t", "running", 1, 0, "");
            var once := Written(t, t, r, 5);
            once.startTime == 5 && Written(once, t, r, 6).startTime == 6 && !Evolves(once, Written(once, t, r, 6))
  {
    assert Lower(TrimSpace("running")) == "running";
  }

  lemma InsertedOne(tasks: Tasks, id: string, t: Task)
    ensures Inserted(tasks, [id], [t]) == tasks[id := t]
  {
    assert [t][..0] == [];
  }

  /** Two calls of CreateTask that both look before either inserts give their device two active tasks. */
  lemma TwoCreatesInterleave(device: Device, release: Release)
    requires device.status != DEVICE_DISABLED && release.supported && TrimSpace(release.downloadURL) != ""
    ensures var rules := Rules((_, _) => true, (_, _) => "");
            var s0 := Mixed(map[], map["d" := device], []);
            var read := ReadCreate("d", release, "", 1);
            MixedPossible(rules, s0, read)
            && var s1 := MixedApply(rules, s0, read);
            MixedPossible(rules, s1, read)
            && var s2 := MixedApply(rules, s1, read);
            MixedPossible(rules, s2, Land(0, ["a"], 1))
            && var s3 := MixedApply(rules, s2, Land(0, ["a"], 1));
            MixedPossible(rules, s3, Land(0, ["b"], 1))
            && !OneActive(MixedApply(rules, s3, Land(0, ["b"], 1)).tasks)
  {
    assert TrimSpace("d") == "d";
    var rules := Rules((_, _) => true, (_, _) => "");
    var read := ReadCreate("d", release, "", 1);
    var s0 := Mixed(map[], map["d" := device], []);
    var t := BuildTask(rules, "d", device, release, "", "", false, false, 1).task;
    var intent := InsertIntent([t]);
    assert MixedPossible(rules, s0, read);
    var s1 := MixedApply(rules, s0, read);
    assert s1 == s0.(intents := [intent]);
    var s2 := MixedApply(rules, s1, read);
    assert s2 == s0.(intents := [intent, intent]);
    InsertedOne(s2.tasks, "a", t);
    var s3 := MixedApply(rules, s2, Land(0, ["a"], 1));
    assert s3.tasks["a"] == t && s3.intents == [intent];
    InsertedOne(s3.tasks, "b", t);
    var s4 := MixedApply(rules, s3, Land(0, ["b"], 1));
    assert s4.tasks["a"] == t && s4.tasks["b"] == t && "a" != "b";
  }

  // ---------------------------------------------------------------- what the calls do

  /** A device that a release can be put on by a call that asks nothing of its connection. */
  predicate Takes(rules: Rules, d: Device, release: Release, url: string) {
    && d.status != 4 && release.supported && rules.matches(release, d) && rules.reason(release, d) == ""
    && (TrimSpace(release.downloadURL) != "" || TrimSpace(url) != "")
  }

  /** A new task as the device will find it. */
  predicate NewTask(t: Task, guid: string, release: Release, batch: string, url: string, now: int) {
    && t.device == guid && t.release == release && t.batch == TrimSpace(batch) && t.status == 1
    && t.progress == 0 && t.downloaded == 0 && t.createTime == now && t.startTime == 0 && t.finishTime == 0
    && t.url == (if TrimSpace(release.downloadURL) != "" then TrimSpace(release.downloadURL) else TrimSpace(url))
  }

  /** The reason of a refusal is a fact about the device, the release and the table. */
  predicate CausedBy(why: Refusal, rules: Rules, d: Device, release: Release, url: string, requireOnline: bool,
                     active: bool)
  {
    match why
    case DeviceNotFound => false
    case NotOnline => requireOnline && d.status != 2
    case Disabled => d.status == 4
    case Unsupported => !release.supported
    case NoMatch => !rules.matches(release, d)
    case Unfit(reason) => reason == rules.reason(release, d) != ""
    case HasActive => active
    case NoURL => TrimSpace(release.downloadURL) == "" && TrimSpace(url) == ""
  }

  /** A task is built exactly if nothing stands against it, as it should be, and else a cause is given. */
  predicate RightlyBuilt(b: Built, rules: Rules, guid: string, d: Device, release: Release, batch: string,
                         url: string, requireOnline: bool, active: bool, now: int)
  {
    && (b.Ready? <==> Takes(rules, d, release, url) && (requireOnline ==> d.status == 2) && !active)
    && match b
       case Ready(t) => NewTask(t, guid, release, batch, url, now)
       case Refused(why) => CausedBy(why, rules, d, release, url, requireOnline, active)
  }

  lemma BuildReadyIff(rules: Rules, guid: string, d: Device, release: Release, batch: string, url: string,
                      requireOnline: bool, active: bool, now: int)
    ensures RightlyBuilt(BuildTask(rules, guid, d, release, batch, url, requireOnline, active, now),
                         rules, guid, d, release, batch, url, requireOnline, active, now)
  {
  }

  /** CreateTask gives the device a pending task exactly if device and release exist, fit each other, and the
      device has no active task. */
  lemma CreateTakesEffect(rules: Rules, s: State, raw: string, release: Option<Release>, url: string, id: string,
                          now: int)
    requires Possible(s, CreateTask(raw, release, url, id, now))
    ensures var guid, t := TrimSpace(raw), Apply(rules, s, CreateTask(raw, release, url, id, now));
            t.devices == s.devices &&
            if guid != "" && guid in s.devices && release.Some? && Takes(rules, s.devices[guid], release.value, url)
               && !HasActiveTask(s.tasks, guid)
            then
              && t.tasks.Keys == s.tasks.Keys + {id} && NewTask(t.tasks[id], guid, release.value, "", url, now)
              && (forall i | i in s.tasks :: t.tasks[i] == s.tasks[i]) && HasActiveTask(t.tasks, guid)
            else t == s
  {
    hide TrimSpace, BuildTask, Takes, NewTask, CausedBy;
    var guid := TrimSpace(raw);
    if guid in s.devices && release.Some? {
      BuildReadyIff(rules, guid, s.devices[guid], release.value, "", url, false, HasActiveTask(s.tasks, guid), now);
      var t := Apply(rules, s, CreateTask(raw, release, url, id, now));
      assert t.tasks != s.tasks ==> t.tasks[id].device == guid && Active(t.tasks[id]);
    }
  }

  lemma PlannedIffReady(rules: Rules, tasks: Tasks, devices: Devices, release: Release, batch: string, url: string,
                        now: int, guids: seq<string>, guid: string)
    ensures var p := PlanFor(rules, tasks, devices, release, batch, url, now, guids);
            (exists t :: t in p.tasks && t.device == guid)
            <==> guid in guids && ForDevice(rules, tasks, devices, release, batch, url, now, guid).Ready?
  {
    hide ForDevice, PlanFor;
    PlanIsBuilt(rules, tasks, devices, release, batch, url, now, guids);
    BatchCoversRequest(rules, tasks, devices, release, batch, url, now, guids);
    var p := PlanFor(rules, tasks, devices, release, batch, url, now, guids);
    var ready, failed := DevicesOf(p.tasks), FailedOf(p.failures);
    assert guid in guids <==> guid in multiset(guids);
    if guid in ready {
      var i :| 0 <= i < |ready| && ready[i] == guid;
      assert p.tasks[i] in p.tasks && guid in multiset(ready);
    }
    if guid in failed {
      var i :| 0 <= i < |failed| && failed[i] == guid;
      assert p.failures[i] in p.failures;
    }
    if exists t :: t in p.tasks && t.device == guid {
      var i :| 0 <= i < |p.tasks| && p.tasks[i].device == guid;
      assert ready[i] == guid;
    }
    if guid in guids {
      assert guid in multiset(ready) || guid in multiset(failed);
    }
  }

  /** A batch gives a task to exactly those requested devices that are known, online, fit for the release and
      without an active task. */
  lemma BatchStartsTasks(rules: Rules, s: State, requested: seq<string>, release: Release, batch: string,
                         url: string, now: int, guid: string)
    requires release.supported
    ensures var p := BatchPlan(rules, s, requested, release, batch, url, now);
            && ((exists t :: t in p.tasks && t.device == guid)
                <==> guid != "" && guid in Trimmings(requested) && guid in s.devices && s.devices[guid].status == 2
                     && Takes(rules, s.devices[guid], release, url) && !HasActiveTask(s.tasks, guid))
            && (forall t | t in p.tasks :: NewTask(t, t.device, release, batch, url, now))
            && (forall f | f in p.failures ::
                  if f.0 in s.devices then
                    CausedBy(f.1, rules, s.devices[f.0], release, url, true, HasActiveTask(s.tasks, f.0))
                  else f.1 == DeviceNotFound)
  {
    hide TrimSpace, BuildTask, Takes, NewTask, CausedBy, HasActiveTask, PlanFor, Unique, Trimmings;
    var guids := Unique(requested);
    UniqueIsTheRequest(requested);
    assert guid in guids <==> guid in set v | v in guids;
    PlannedIffReady(rules, s.tasks, s.devices, release, batch, url, now, guids, guid);
    PlanIsBuilt(rules, s.tasks, s.devices, release, batch, url, now, guids);
    forall g | g in s.devices
      ensures RightlyBuilt(ForDevice(rules, s.tasks, s.devices, release, batch, url, now, g), rules, g, s.devices[g],
                           release, batch, url, true, HasActiveTask(s.tasks, g), now)
    {
      BuildReadyIff(rules, g, s.devices[g], release, batch, url, true, HasActiveTask(s.tasks, g), now);
    }
    var b := ForDevice(rules, s.tasks, s.devices, release, batch, url, now, guid);
    var active := HasActiveTask(s.tasks, guid);
    assert guid in s.devices ==>
             RightlyBuilt(b, rules, guid, s.devices[guid], release, batch, url, true, active, now);
    assert guid in guids <==> guid in Trimmings(requested) - {""};
  }

  /** And all of them are in the table afterwards, beside all that was there. */
  lemma BatchIsInserted(rules: Rules, s: State, requested: seq<string>, release: Release, batch: string, url: string,
                        ids: seq<string>, now: int)
    requires Possible(s, CreateBatch(requested, Some(release), batch, url, ids, now)) && release.supported
    ensures var t := Apply(rules, s, CreateBatch(requested, Some(release), batch, url, ids, now));
            && (forall i | i in s.tasks :: i in t.tasks && t.tasks[i] == s.tasks[i])
            && (forall task | task in BatchPlan(rules, s, requested, release, batch, url, now).tasks ::
                  exists i :: i in ids && i in t.tasks && t.tasks[i] == task)
  {
    hide PlanFor, Unique;
    UniqueFits(requested);
    PlanFits(rules, s.tasks, s.devices, release, batch, url, now, Unique(requested));
    var plan := BatchPlan(rules, s, requested, release, batch, url, now);
    InsertedHas(s.tasks, ids, plan.tasks);
    forall task | task in plan.tasks
      ensures exists i :: i in ids && i in Inserted(s.tasks, ids, plan.tasks)
                          && Inserted(s.tasks, ids, plan.tasks)[i] == task
    {
      var k :| 0 <= k < |plan.tasks| && plan.tasks[k] == task;
      assert ids[k] in ids;
    }
  }

  /** What a report of an active task's device leaves: the reported state, its start when it first runs, its end
      when it ends, and progress that a report without any does not set back. */
  lemma ReportTakesEffect(rules: Rules, s: State, raw: string, r: Request, now: int)
    requires Inv(s.tasks) && now > 0 && TrimSpace(raw) != "" && TrimSpace(raw) in s.tasks
    requires Active(s.tasks[TrimSpace(raw)]) && TrimSpace(r.token) != "" && ReportStatus(r.status) != 0
    ensures var id, after := TrimSpace(raw), Apply(rules, s, Report(raw, true, r, now)).tasks;
            var was, status := s.tasks[id], ReportStatus(r.status);
            && after.Keys == s.tasks.Keys && (forall i | i in s.tasks && i != id :: after[i] == s.tasks[i])
            && after[id].status == status && after[id].updateTime == now
            && after[id].startTime == (if status == 2 && was.startTime == 0 then now else was.startTime)
            && after[id].finishTime == (if status == 2 then 0 else now)
            && after[id].errorMessage == (if status == 4 then TrimSpace(r.errorMessage) else "")
            && (r.downloaded > 0 ==> after[id].downloaded == r.downloaded)
            && (r.downloaded <= 0 && was.downloaded >= 0 ==> after[id].downloaded == was.downloaded)
            && (1 <= r.progress <= 99 && status != 3 ==> after[id].progress == r.progress)
            && (r.progress <= 0 && was.progress > 0 ==> after[id].progress >= was.progress)
  {
    hide TrimSpace;
    assert TaskOK(s.tasks[TrimSpace(raw)]);
  }

  /** A report without a valid token, with an unknown state, or of a task that has ended or is not there,
      changes nothing. */
  lemma OtherReportsDoNothing(rules: Rules, s: State, raw: string, tokenOk: bool, r: Request, now: int)
    requires now > 0
    requires TrimSpace(raw) !in s.tasks || !Active(s.tasks[TrimSpace(raw)]) || TrimSpace(r.token) == "" || !tokenOk
             || ReportStatus(r.status) == 0
    requires forall id | id in s.tasks :: TaskOK(s.tasks[id])
    ensures Apply(rules, s, Report(raw, tokenOk, r, now)) == s
  {
    hide TrimSpace;
  }

  /** A device's active task is what PendingCommand finds if it is pending, or running without a report for
      fifteen minutes. */
  lemma ActiveTaskIsFound(s: State, device: string, now: int, id: string)
    requires Inv(s.tasks) && id in s.tasks && s.tasks[id].device == device
    requires s.tasks[id].status == 1 || (s.tasks[id].status == 2 && s.tasks[id].updateTime + 900_000 < now)
    ensures forall pick :: Picks(s.tasks, device, now, pick) <==> pick == Some(id)
  {
  }

  /** The task found fails with the reason if its device is known and no longer fits, and nothing else changes. */
  lemma UnfitTaskFails(rules: Rules, s: State, device: string, id: string, now: int)
    requires Possible(s, PendingCommand(device, Some(id), now))
    ensures var after, t := Apply(rules, s, PendingCommand(device, Some(id), now)).tasks, s.tasks[id];
            && after.Keys == s.tasks.Keys && (forall i | i in s.tasks && i != id :: after[i] == s.tasks[i])
            && if t.device in s.devices && rules.reason(t.release, s.devices[t.device]) != "" then
                 after[id].status == 4 && after[id].finishTime == now && after[id].updateTime == now
                 && after[id].errorMessage == rules.reason(t.release, s.devices[t.device])
               else after == s.tasks
  {
    hide TrimSpace;
  }

  /** The table after a call whose write follows its reads at once, if its reads lead to a write. */
  function ReadAndLand(rules: Rules, s: State, read: MixedStep, ids: seq<string>, now: int): Tasks
    requires |ids| >= 1 && !read.Land? && (read.ReadBatch? ==> |ids| >= |read.requested|)
  {
    var before := Mixed(s.tasks, s.devices, []);
    if !MixedPossible(rules, before, read) then s.tasks
    else
      var after := MixedApply(rules, before, read);
      if after.intents == [] then after.tasks
      else
        SmallIntent(rules, before, read);
        Landed(after.tasks, after.intents[0], if read.ReadBatch? then ids else ids[..1], now)
  }

  lemma SmallIntent(rules: Rules, s: Mixed, read: MixedStep)
    requires s.intents == [] && MixedPossible(rules, s, read) && !read.Land? && MixedApply(rules, s, read).intents != []
    ensures var intent := MixedApply(rules, s, read).intents[0];
            intent.InsertIntent? ==> |intent.added| <= if read.ReadBatch? then |read.requested| else 1
  {
    if read.ReadBatch? {
      UniqueFits(read.requested);
      PlanFits(rules, s.tasks, s.devices, read.release, read.batch, read.url, read.now, Unique(read.requested));
    }
  }

  /** The calls split into reads and writes are the calls of before when nothing comes in between. */
  lemma UninterruptedIsTheCall(rules: Rules, s: State, raw: string, tokenOk: bool, r: Request, release: Release,
                               url: string, ids: seq<string>, now: int)
    requires now > 0 && |ids| >= 1 && Fresh(s.tasks, ids)
    ensures ReadAndLand(rules, s, ReadReport(raw, tokenOk, r), ids, now)
            == Apply(rules, s, Report(raw, tokenOk, r, now)).tasks
    ensures ReadAndLand(rules, s, ReadCreate(raw, release, url, now), ids, now)
            == Apply(rules, s, CreateTask(raw, Some(release), url, ids[0], now)).tasks
    ensures forall id | Picks(s.tasks, TrimSpace(raw), now, Some(id)) ::
              ReadAndLand(rules, s, ReadPending(raw, id, now), ids, now)
              == Apply(rules, s, PendingCommand(raw, Some(id), now)).tasks
  {
    hide TrimSpace, BuildTask, ReportStatus, ReportProgress, ReportDownloaded;
    var guid := TrimSpace(raw);
    if guid in s.devices {
      var b := BuildTask(rules, guid, s.devices[guid], release, "", url, false, HasActiveTask(s.tasks, guid), now);
      if b.Ready? {
        InsertedOne(s.tasks, ids[0], b.task);
        assert ids[..1] == [ids[0]];
        BuildReadyIff(rules, guid, s.devices[guid], release, "", url, false, HasActiveTask(s.tasks, guid), now);
      }
    }
  }

  lemma UninterruptedBatchIsTheCall(rules: Rules, s: State, requested: seq<string>, release: Release, batch: string,
                                    url: string, ids: seq<string>, now: int)
    requires Possible(s, CreateBatch(requested, Some(release), batch, url, ids, now)) && release.supported && |ids| >= 1
    ensures ReadAndLand(rules, s, ReadBatch(requested, release, batch, url, now), ids, now)
            == Apply(rules, s, CreateBatch(requested, Some(release), batch, url, ids, now)).tasks
  {
    hide PlanFor, Unique;
  }

  // ---------------------------------------------------------------- the code

  class DeviceUpgradeService {
    const rules: Rules
    var tasks: Tasks
    var devices: Devices

    ghost function Now(): State
      reads this
    {
      State(tasks, devices)
    }

    constructor (rules: Rules, devices: Devices)
      ensures tasks == map[] && this.devices == devices && this.rules == rules && Inv(tasks)
    {
      this.rules, this.tasks, this.devices := rules, map[], devices;
    }

    /** The loop of CreateBatch over the requested devices. */
    method BuildAll(guids: seq<string>, release: Release, batch: string, url: string, now: int) returns (plan: Plan)
      ensures plan == PlanFor(rules, tasks, devices, release, batch, url, now, guids)
    {
      var active := set id | id in tasks && tasks[id].status in {PENDING, RUNNING} :: tasks[id].device;
      plan := Plan([], []);
      for i := 0 to |guids|
        invariant plan == PlanFor(rules, tasks, devices, release, batch, url, now, guids[..i])
      {
        var guid := guids[i];
        assert guids[..i + 1][..i] == guids[..i];
        assert guid in active <==> HasActiveTask(tasks, guid);
        if guid !in devices {
          plan := plan.(failures := plan.failures + [(guid, DeviceNotFound)]);
          continue;
        }
        var built := BuildTask(rules, guid, devices[guid], release, batch, url, true, guid in active, now);
        match built
        case Ready(t) => plan := plan.(tasks := plan.tasks + [t]);
        case Refused(why) => plan := plan.(failures := plan.failures + [(guid, why)]);
      }
      assert guids[..|guids|] == guids;
    }

    method InsertAll(ids: seq<string>, added: seq<Task>)
      requires |ids| >= |added|
      modifies this`tasks
      ensures tasks == Inserted(old(tasks), ids, added)
    {
      for i := 0 to |added|
        invariant tasks == Inserted(old(tasks), ids, added[..i])
      {
        assert added[..i + 1][..i] == added[..i];
        tasks := tasks[ids[i] := added[i]];
      }
      assert added[..|added|] == added;
    }

    /** CreateBatch, all or nothing: with no error the tasks and failures are the plan of the request. */
    method CreateBatch(requested: seq<string>, release: Option<Release>, batch: string, url: string, ids: seq<string>,
                       now: int)
      returns (created: Option<Plan>)
      requires Inv(tasks) && |ids| >= |requested| && Fresh(tasks, ids)
      modifies this`tasks
      ensures Inv(tasks) && tasks == BatchCreated(rules, old(Now()), requested, release, batch, url, ids, now)
      ensures created.None? ==> tasks == old(tasks)
      ensures created.Some? ==>
                release.Some?
                && created.value == BatchPlan(rules, old(Now()), requested, release.value, batch, url, now)
      ensures created.Some? <==>
                release.Some? && release.value.supported
                && BatchPlan(rules, old(Now()), requested, release.value, batch, url, now).tasks != []
    {
      hide Inv;
      BatchKeepsInv(rules, Now(), requested, release, batch, url, ids, now);
      if release.None? || !release.value.supported {
        return None;
      }
      var guids := UniqueTrimmedStrings(requested);
      if |guids| == 0 {
        return None;
      }
      var plan := BuildAll(guids, release.value, batch, url, now);
      UniqueFits(requested);
      PlanFits(rules, tasks, devices, release.value, batch, url, now, guids);
      if |plan.tasks| == 0 {
        return None;
      }
      InsertAll(ids, plan.tasks);
      return Some(plan);
    }

    method CreateTask(device: string, release: Option<Release>, url: string, id: string, now: int) returns (ok: bool)
      requires Inv(tasks) && id !in tasks
      modifies this`tasks
      ensures Inv(tasks) && tasks == Created(rules, old(Now()), device, release, url, id, now)
      ensures ok <==> tasks != old(tasks)
    {
      CreateKeepsInv(rules, Now(), device, release, url, id, now);
      var guid := TrimSpace(device);
      if guid == "" || guid !in devices || release.None? {
        return false;
      }
      var active := exists i | i in tasks :: tasks[i].device == guid && Active(tasks[i]);
      var built := BuildTask(rules, guid, devices[guid], release.value, "", url, false, active, now);
      match built
      case Ready(t) => tasks := tasks[id := t]; return true;
      case Refused(_) => return false;
    }

    /** The command is for the device's active task, or there is none to give. */
    method PendingCommand(deviceGuid: string, now: int) returns (command: Option<string>)
      requires Inv(tasks) && now > 0
      modifies this`tasks
      ensures Inv(tasks)
      ensures exists pick :: Picks(old(tasks), TrimSpace(deviceGuid), now, pick)
                && tasks == Picked(rules, old(Now()), pick, now)
                && command == if pick.Some? && Fits(rules, old(Now()), pick.value) then pick else None
    {
      var device := TrimSpace(deviceGuid);
      if !(exists id | id in tasks :: Deliverable(tasks[id], device, now)) {
        assert Picks(tasks, device, now, None) && tasks == Picked(rules, Now(), None, now);
        return None;
      }
      var id :| id in tasks && Deliverable(tasks[id], device, now);
      assert Picks(tasks, device, now, Some(id));
      StepKeepsInv(rules, Now(), Step.PendingCommand(deviceGuid, Some(id), now));
      var t := tasks[id];
      if t.device in devices {
        var reason := rules.reason(t.release, devices[t.device]);
        if reason != "" {
          tasks := tasks[id := t.(status := FAILED, errorMessage := reason, finishTime := now, updateTime := now)];
          return None;
        }
      }
      return Some(id);
    }

    method Report(taskGuid: string, tokenOk: bool, request: Request, now: int) returns (ok: bool)
      requires Inv(tasks) && now > 0
      modifies this`tasks
      ensures Inv(tasks)
      ensures var id := TrimSpace(taskGuid);
              tasks == if id != "" && id in old(tasks)
                then old(tasks)[id := Reported(old(tasks)[id], tokenOk, request, now)] else old(tasks)
      ensures ok <==> TrimSpace(taskGuid) != "" && TrimSpace(taskGuid) in old(tasks) && TrimSpace(request.token) != ""
                      && tokenOk && ReportStatus(request.status) != 0
    {
      var id := TrimSpace(taskGuid);
      if id == "" || TrimSpace(request.token) == "" || id !in tasks {
        return false;
      }
      var t := tasks[id];
      if !tokenOk || ReportStatus(request.status) == 0 {
        return false;
      }
      if Terminal(t.status) {
        return true;
      }
      ReportEvolves(t, tokenOk, request, now);
      UpdateKeepsInv(tasks, id, Written(t, t, request, now));
      tasks := tasks[id := Written(t, t, request, now)];
      return true;
    }
  }
}
