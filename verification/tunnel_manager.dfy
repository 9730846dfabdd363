/**
 The registry of device connections (`tunnel.Manager`).

 An item is numbered by its allocation, and the number stands for its pointer. What one goroutine does
 under the lock, or in one channel operation, is one action; closing an item after the lock is released
 is a sequence of actions of its own, so every interleaving of the goroutines is a sequence of actions.
 */
module TunnelManager {
  import opened Sequences
  import opened Text

  const QUEUE_CAPACITY := 64

  /** DeviceConnection. The connections are numbers; `queue` is the channel tcpData. */
  datatype Item = Item(control: Option<nat>, data: Option<nat>, tcpControl: Option<nat>, queue: seq<nat>)

  /** A call of OpenTCPStream: it has looked an item up, or it has taken a connection from its queue. */
  datatype Opener = Waiting(item: nat) | Holding(conn: nat)

  datatype Place = Queued(item: nat) | Held(opener: nat) | Closed

  /** `closing` are the items taken out of the map whose closeDeviceItem has not come to its end.
      `owner` is history: where each TCP data connection was put last. */
  datatype State = State(
    connections: map<string, nat>,
    items: seq<Item>,
    closing: set<nat>,
    openers: map<nat, Opener>,
    closed: set<nat>,
    owner: map<nat, Place>)

  datatype Action =
    | RegisterTCPData(guid: string, conn: nat)
    | RegisterTCPControl(guid: string, conn: nat)
    | RegisterQUICData(guid: string, conn: nat)
    | RegisterQUICControl(guid: string, conn: nat, legacy: bool)
    | Unregister(guid: string)
    | UnregisterQUICControl(guid: string, conn: nat)
    | UnregisterTCPControl(guid: string, conn: nat)
    | UnregisterQUICData(guid: string, conn: nat)
    | CloseDevice(guid: string)
    | CloseDeviceIfCurrent(guid: string, expected: nat)
    | CloseAll
    | DrainOne(item: nat)
    | DrainEnd(item: nat)
    | Lookup(opener: nat, guid: string)
    | Receive(opener: nat)
    | GiveUp(opener: nat)
    | CloseHeld(opener: nat)

  const Empty := State(map[], [], {}, map[], {}, map[])

  predicate Blank(guid: string) {
    TrimSpace(guid) == ""
  }

  /** Take the device's item out of the map and leave it to be closed. */
  function Detach(s: State, guid: string): State {
    if guid in s.connections then
      s.(connections := s.connections - {guid}, closing := s.closing + {s.connections[guid]})
    else s
  }

  function Attach(s: State, guid: string, item: Item): State {
    s.(connections := s.connections[guid := |s.items|], items := s.items + [item])
  }

  /** The item that a data registration finds or makes. */
  function WithItem(s: State, guid: string): State {
    if guid in s.connections then s else Attach(s, guid, Item(None, None, None, []))
  }

  predicate IsItem(s: State, i: nat) {
    i < |s.items|
  }

  predicate Bounded(s: State) {
    && (forall g | g in s.connections :: IsItem(s, s.connections[g]))
    && (forall i | i in s.closing :: IsItem(s, i))
    && (forall o | o in s.openers && s.openers[o].Waiting? :: IsItem(s, s.openers[o].item))
  }

  /** Channel operations wait until they can proceed; every other action can always happen. A connection
      is handed over once, and a call of OpenTCPStream has its own number. */
  predicate Enabled(s: State, a: Action) {
    match a
    case RegisterTCPData(_, conn) => conn !in s.owner
    case DrainOne(i) => i in s.closing && IsItem(s, i) && s.items[i].queue != []
    case DrainEnd(i) => i in s.closing && IsItem(s, i) && s.items[i].queue == []
    case Lookup(o, g) => o !in s.openers && g in s.connections
    case Receive(o) => o in s.openers && s.openers[o].Waiting? && IsItem(s, s.openers[o].item)
      && s.items[s.openers[o].item].queue != []
    case GiveUp(o) => o in s.openers && s.openers[o].Waiting?
    case CloseHeld(o) => o in s.openers && s.openers[o].Holding?
    case _ => true
  }

  function SendData(s: State, i: nat, conn: nat): State
    requires IsItem(s, i)
  {
    var item := s.items[i];
    if |item.queue| < QUEUE_CAPACITY then
      s.(items := s.items[i := item.(queue := item.queue + [conn])], owner := s.owner[conn := Queued(i)])
    else
      s.(closed := s.closed + {conn}, owner := s.owner[conn := Closed])
  }

  function Step(s: State, a: Action): State
    requires Bounded(s) && Enabled(s, a)
  {
    match a
    case RegisterTCPData(g, conn) =>
      var s1 := WithItem(s, g);
      SendData(s1, s1.connections[g], conn)
    case RegisterTCPControl(g, conn) => Attach(Detach(s, g), g, Item(None, None, Some(conn), []))
    case RegisterQUICData(g, conn) =>
      var s1 := WithItem(s, g);
      var i := s1.connections[g];
      s1.(items := s1.items[i := s1.items[i].(data := Some(conn))])
    case RegisterQUICControl(g, conn, legacy) =>
      Attach(Detach(s, g), g, Item(Some(conn), if legacy then Some(conn) else None, None, []))
    case Unregister(g) => Detach(s, g)
    case UnregisterQUICControl(g, conn) =>
      if !Blank(g) && g in s.connections && s.items[s.connections[g]].control == Some(conn) then Detach(s, g) else s
    case UnregisterTCPControl(g, conn) =>
      if !Blank(g) && g in s.connections && s.items[s.connections[g]].tcpControl == Some(conn) then Detach(s, g) else s
    case UnregisterQUICData(raw, conn) =>
      var g := TrimSpace(raw);
      if g != "" && g in s.connections && s.items[s.connections[g]].data == Some(conn) then
        var i := s.connections[g];
        var s1 := s.(items := s.items[i := s.items[i].(data := None)]);
        if s.items[i].control.None? && s.items[i].tcpControl.None? then s1.(connections := s.connections - {g}) else s1
      else s
    case CloseDevice(raw) => if !Blank(raw) then Detach(s, TrimSpace(raw)) else s
    case CloseDeviceIfCurrent(raw, expected) =>
      var g := TrimSpace(raw);
      if g != "" && g in s.connections && s.connections[g] == expected then Detach(s, g) else s
    case CloseAll => s.(connections := map[], closing := s.closing + s.connections.Values)
    case DrainOne(i) =>
      var conn := s.items[i].queue[0];
      s.(items := s.items[i := s.items[i].(queue := s.items[i].queue[1..])],
         closed := s.closed + {conn}, owner := s.owner[conn := Closed])
    case DrainEnd(i) => s.(closing := s.closing - {i})
    case Lookup(o, g) => s.(openers := s.openers[o := Waiting(s.connections[g])])
    case Receive(o) =>
      var i := s.openers[o].item;
      var conn := s.items[i].queue[0];
      s.(items := s.items[i := s.items[i].(queue := s.items[i].queue[1..])],
         openers := s.openers[o := Holding(conn)], owner := s.owner[conn := Held(o)])
    case GiveUp(o) => s.(openers := s.openers - {o})
    case CloseHeld(o) =>
      var conn := s.openers[o].conn;
      s.(openers := s.openers - {o}, closed := s.closed + {conn}, owner := s.owner[conn := Closed])
  }

  // ---------------------------------------------------------------- where a data connection can be

  predicate At(s: State, conn: nat, p: Place) {
    match p
    case Queued(i) => IsItem(s, i) && conn in s.items[i].queue
    case Held(o) => o in s.openers && s.openers[o] == Holding(conn)
    case Closed => conn in s.closed
  }

  /** Every data connection is where history says and nowhere else, and queues have no repeats. */
  ghost predicate DataInv(s: State) {
    && (forall conn, p :: At(s, conn, p) <==> conn in s.owner && s.owner[conn] == p)
    && (forall i | 0 <= i < |s.items| :: NoRepeats(s.items[i].queue) && |s.items[i].queue| <= QUEUE_CAPACITY)
  }

  /** No item is mapped twice, and none is both mapped and being closed. */
  ghost predicate MapInv(s: State) {
    && Bounded(s)
    && (forall g, h | g in s.connections && h in s.connections && s.connections[g] == s.connections[h] :: g == h)
    && (forall g | g in s.connections :: s.connections[g] !in s.closing)
  }

  ghost predicate Inv(s: State) {
    MapInv(s) && DataInv(s)
  }

  /** t differs from s in the map and in new, empty items only. */
  ghost predicate SameData(s: State, t: State) {
    && |s.items| <= |t.items|
    && (forall i | 0 <= i < |s.items| :: t.items[i].queue == s.items[i].queue)
    && (forall i | |s.items| <= i < |t.items| :: t.items[i].queue == [])
    && t.closed == s.closed && t.owner == s.owner
    && (forall o, conn ::
          (o in s.openers && s.openers[o] == Holding(conn)) <==> (o in t.openers && t.openers[o] == Holding(conn)))
  }

  lemma SameDataKeepsInv(s: State, t: State)
    requires DataInv(s) && SameData(s, t)
    ensures DataInv(t)
  {
    forall conn, p ensures At(t, conn, p) <==> conn in t.owner && t.owner[conn] == p {
      assert At(s, conn, p) <==> At(t, conn, p);
    }
  }

  lemma DetachKeepsMap(s: State, guid: string)
    requires MapInv(s)
    ensures MapInv(Detach(s, guid)) && guid !in Detach(s, guid).connections
  {
  }

  lemma AttachKeepsMap(s: State, guid: string, item: Item)
    requires MapInv(s)
    ensures MapInv(Attach(s, guid, item))
  {
  }

  predicate MovesData(a: Action) {
    a.RegisterTCPData? || a.DrainOne? || a.Receive? || a.CloseHeld?
  }

  lemma MapActionKeepsMap(s: State, a: Action)
    requires MapInv(s) && Enabled(s, a) && !MovesData(a)
    ensures MapInv(Step(s, a))
  {
    match a
    case RegisterTCPControl(g, conn) =>
      DetachKeepsMap(s, g);
      AttachKeepsMap(Detach(s, g), g, Item(None, None, Some(conn), []));
    case RegisterQUICControl(g, conn, legacy) =>
      DetachKeepsMap(s, g);
      AttachKeepsMap(Detach(s, g), g, Item(Some(conn), if legacy then Some(conn) else None, None, []));
    case RegisterQUICData(g, conn) => AttachKeepsMap(s, g, Item(None, None, None, []));
    case Unregister(g) => DetachKeepsMap(s, g);
    case UnregisterQUICControl(g, conn) => DetachKeepsMap(s, g);
    case UnregisterTCPControl(g, conn) => DetachKeepsMap(s, g);
    case CloseDevice(raw) => DetachKeepsMap(s, TrimSpace(raw));
    case CloseDeviceIfCurrent(raw, expected) => DetachKeepsMap(s, TrimSpace(raw));
    case _ =>
  }

  predicate Closes(a: Action) {
    a.Unregister? || a.UnregisterQUICControl? || a.UnregisterTCPControl? || a.UnregisterQUICData?
    || a.CloseDevice? || a.CloseDeviceIfCurrent? || a.CloseAll?
  }

  lemma CloseActionKeepsData(s: State, a: Action)
    requires MapInv(s) && Enabled(s, a) && Closes(a)
    ensures SameData(s, Step(s, a))
  {
  }

  lemma OtherActionKeepsData(s: State, a: Action)
    requires MapInv(s) && Enabled(s, a) && !MovesData(a) && !Closes(a)
    ensures SameData(s, Step(s, a))
  {
  }

  lemma MapActionKeepsData(s: State, a: Action)
    requires MapInv(s) && Enabled(s, a) && !MovesData(a)
    ensures SameData(s, Step(s, a))
  {
    if Closes(a) {
      CloseActionKeepsData(s, a);
    } else {
      OtherActionKeepsData(s, a);
    }
  }

  lemma SendKeepsInv(s: State, i: nat, conn: nat)
    requires Inv(s) && IsItem(s, i) && conn !in s.owner
    ensures Inv(SendData(s, i, conn))
  {
    var t := SendData(s, i, conn);
    forall c, p ensures At(t, c, p) <==> c in t.owner && t.owner[c] == p {
      assert At(s, c, p) <==> c in s.owner && s.owner[c] == p;
      assert !At(s, conn, p);
    }
    assert !At(s, conn, Queued(i));
  }

  /** Taking the head of a queue: the connection leaves it and goes to place p. */
  lemma TakeKeepsData(s: State, i: nat, t: State, p: Place)
    requires Inv(s) && IsItem(s, i) && s.items[i].queue != []
    requires t.items == s.items[i := s.items[i].(queue := s.items[i].queue[1..])]
    requires var conn := s.items[i].queue[0];
             && t.owner == s.owner[conn := p]
             && match p
                case Closed => t.closed == s.closed + {conn} && t.openers == s.openers
                case Held(o) => t.closed == s.closed && t.openers == s.openers[o := Holding(conn)]
                                && o in s.openers && s.openers[o].Waiting?
                case Queued(_) => false
    ensures DataInv(t)
  {
    var q := s.items[i].queue;
    var conn := q[0];
    assert forall c :: c in q[1..] <==> c in q && c != conn by {
      assert forall k | 1 <= k < |q| :: q[1..][k - 1] == q[k];
    }
    assert At(s, conn, Queued(i));
    forall c, r ensures At(t, c, r) <==> c in t.owner && t.owner[c] == r {
      assert At(s, c, r) <==> c in s.owner && s.owner[c] == r;
      assert At(s, conn, r) <==> conn in s.owner && s.owner[conn] == r;
    }
  }

  lemma CloseHeldKeepsData(s: State, o: nat)
    requires Inv(s) && Enabled(s, CloseHeld(o))
    ensures DataInv(Step(s, CloseHeld(o)))
  {
    var t := Step(s, CloseHeld(o));
    var conn := s.openers[o].conn;
    assert At(s, conn, Held(o));
    forall c, r ensures At(t, c, r) <==> c in t.owner && t.owner[c] == r {
      assert At(s, c, r) <==> c in s.owner && s.owner[c] == r;
      assert At(s, conn, r) <==> conn in s.owner && s.owner[conn] == r;
    }
  }

  lemma RegisterDataKeepsInv(s: State, g: string, conn: nat)
    requires Inv(s) && conn !in s.owner
    ensures Inv(Step(s, RegisterTCPData(g, conn)))
  {
    var s1 := WithItem(s, g);
    if g !in s.connections {
      AttachKeepsMap(s, g, Item(None, None, None, []));
      SameDataKeepsInv(s, s1);
    }
    SendKeepsInv(s1, s1.connections[g], conn);
  }

  lemma TakeActionKeepsInv(s: State, a: Action)
    requires Inv(s) && Enabled(s, a) && MovesData(a) && !a.RegisterTCPData?
    ensures Inv(Step(s, a))
  {
    match a
    case DrainOne(i) => TakeKeepsData(s, i, Step(s, a), Closed);
    case Receive(o) => TakeKeepsData(s, s.openers[o].item, Step(s, a), Held(o));
    case CloseHeld(o) => CloseHeldKeepsData(s, o);
  }

  /** Every action of every goroutine keeps the invariant. */
  lemma StepKeepsInv(s: State, a: Action)
    requires Inv(s) && Enabled(s, a)
    ensures Inv(Step(s, a))
  {
    if a.RegisterTCPData? {
      RegisterDataKeepsInv(s, a.guid, a.conn);
    } else if MovesData(a) {
      TakeActionKeepsInv(s, a);
    } else {
      MapActionKeepsMap(s, a);
      MapActionKeepsData(s, a);
      SameDataKeepsInv(s, Step(s, a));
    }
  }

  lemma EmptyHasInv()
    ensures Inv(Empty)
  {
  }

  // ---------------------------------------------------------------- runs

  /** t can be reached from s by these actions, each of which could happen when it did. */
  predicate Run(s: State, actions: seq<Action>, t: State)
    decreases |actions|
  {
    if actions == [] then t == s
    else Bounded(s) && Enabled(s, actions[0]) && Run(Step(s, actions[0]), actions[1..], t)
  }

  lemma {:induction false} RunKeepsInv(s: State, actions: seq<Action>, t: State)
    requires Inv(s) && Run(s, actions, t)
    ensures Inv(t)
    decreases |actions|
  {
    if actions != [] {
      StepKeepsInv(s, actions[0]);
      RunKeepsInv(Step(s, actions[0]), actions[1..], t);
    }
  }

  predicate HandsOver(a: Action, conn: nat) {
    a.RegisterTCPData? && a.conn == conn
  }

  lemma {:induction false} HandedOverIsOwned(s: State, actions: seq<Action>, t: State, conn: nat)
    requires Inv(s) && Run(s, actions, t)
    ensures conn in t.owner <==> conn in s.owner || exists k :: 0 <= k < |actions| && HandsOver(actions[k], conn)
    decreases |actions|
  {
    if actions != [] {
      StepKeepsInv(s, actions[0]);
      HandedOverIsOwned(Step(s, actions[0]), actions[1..], t, conn);
      StepHandsOver(s, actions[0], conn);
      assert forall k | 1 <= k < |actions| :: actions[k] == actions[1..][k - 1];
    }
  }

  lemma StepHandsOver(s: State, a: Action, conn: nat)
    requires Inv(s) && Enabled(s, a)
    ensures conn in Step(s, a).owner <==> conn in s.owner || HandsOver(a, conn)
  {
    match a
    case DrainOne(i) => assert At(s, s.items[i].queue[0], Queued(i));
    case Receive(o) => assert At(s, s.items[s.openers[o].item].queue[0], Queued(s.openers[o].item));
    case CloseHeld(o) => assert At(s, s.openers[o].conn, Held(o));
    case _ =>
  }

  /** Ownership: after any run from the empty registry, a data connection is in exactly one place if it was
      handed to RegisterTCP, and nowhere if it was not. */
  lemma ExactlyOnePlace(actions: seq<Action>, t: State, conn: nat)
    requires Run(Empty, actions, t)
    ensures (exists k :: 0 <= k < |actions| && HandsOver(actions[k], conn)) <==>
            exists p :: At(t, conn, p) && forall q :: At(t, conn, q) ==> q == p
    ensures forall p, q :: At(t, conn, p) && At(t, conn, q) ==> p == q
    ensures forall i | 0 <= i < |t.items| :: NoRepeats(t.items[i].queue)
  {
    EmptyHasInv();
    RunKeepsInv(Empty, actions, t);
    HandedOverIsOwned(Empty, actions, t, conn);
    if conn in t.owner {
      assert At(t, conn, t.owner[conn]);
    }
  }

  // ---------------------------------------------------------------- detached items

  predicate Current(s: State, g: string, i: nat) {
    g in s.connections && s.connections[g] == i
  }

  predicate Mapped(s: State, i: nat) {
    exists g :: g in s.connections && s.connections[g] == i
  }

  /** The map only ever gains the item that the action has just made. */
  lemma MapGainsOnlyNewItems(s: State, a: Action)
    requires MapInv(s) && Enabled(s, a)
    ensures var t := Step(s, a);
            forall g | g in t.connections :: Current(s, g, t.connections[g]) || t.connections[g] == |s.items|
  {
  }

  /** An item out of the map never comes back, and nothing is sent to it any more. */
  lemma DetachedStaysDetached(s: State, a: Action, i: nat)
    requires Inv(s) && Enabled(s, a) && IsItem(s, i) && !Mapped(s, i)
    ensures var t := Step(s, a);
            IsItem(t, i) && !Mapped(t, i) && IsTail(t.items[i].queue, s.items[i].queue)
  {
    MapGainsOnlyNewItems(s, a);
    if MovesData(a) {
      DetachedQueueOnlyShrinks(s, a, i);
    } else {
      MapActionKeepsData(s, a);
    }
  }

  lemma DetachedQueueOnlyShrinks(s: State, a: Action, i: nat)
    requires Inv(s) && Enabled(s, a) && IsItem(s, i) && !Mapped(s, i) && MovesData(a)
    ensures var t := Step(s, a);
            IsItem(t, i) && (t.items[i].queue == s.items[i].queue
              || (s.items[i].queue != [] && t.items[i].queue == s.items[i].queue[1..]))
  {
  }

  /** What is left of a queue after its front has been taken. */
  predicate IsTail(tail: seq<nat>, queue: seq<nat>) {
    |tail| <= |queue| && tail == queue[|queue| - |tail|..]
  }

  lemma {:induction false} DetachedForever(s: State, actions: seq<Action>, t: State, i: nat)
    requires Inv(s) && Run(s, actions, t) && IsItem(s, i) && !Mapped(s, i)
    ensures IsItem(t, i) && !Mapped(t, i) && IsTail(t.items[i].queue, s.items[i].queue)
    decreases |actions|
  {
    if actions != [] {
      StepKeepsInv(s, actions[0]);
      DetachedStaysDetached(s, actions[0], i);
      DetachedForever(Step(s, actions[0]), actions[1..], t, i);
    }
  }

  /** No data connection waits in an item that is out of the map and that nobody is closing. */
  ghost predicate NoResidue(s: State) {
    forall i | 0 <= i < |s.items| && s.items[i].queue != [] :: Mapped(s, i) || i in s.closing
  }

  /** UnregisterQUICData takes an item with queued connections out of the map. */
  predicate DropsQueue(s: State, a: Action)
    requires Bounded(s)
  {
    a.UnregisterQUICData? &&
    var g := TrimSpace(a.guid);
    g != "" && g in s.connections &&
    var item := s.items[s.connections[g]];
    item.data == Some(a.conn) && item.control.None? && item.tcpControl.None? && item.queue != []
  }

  lemma StepOfMapped(s: State, a: Action, i: nat)
    requires Inv(s) && Enabled(s, a) && IsItem(s, i) && Mapped(s, i) && s.items[i].queue != []
    ensures Mapped(Step(s, a), i) || i in Step(s, a).closing || DropsQueue(s, a)
  {
    var g :| g in s.connections && s.connections[g] == i;
    var t := Step(s, a);
    assert Current(t, g, i) || i in t.closing || DropsQueue(s, a);
  }

  lemma DroppedQueueIsResidue(s: State, a: Action)
    requires MapInv(s) && Enabled(s, a) && DropsQueue(s, a)
    ensures !NoResidue(Step(s, a))
  {
  }

  lemma FirstQueuedIsMapped(s: State, a: Action, i: nat)
    requires Inv(s) && Enabled(s, a) && IsItem(Step(s, a), i) && Step(s, a).items[i].queue != []
    requires !IsItem(s, i) || s.items[i].queue == []
    ensures Mapped(Step(s, a), i)
  {
  }

  lemma NoDropNoResidue(s: State, a: Action, i: nat)
    requires Inv(s) && Enabled(s, a) && NoResidue(s) && !DropsQueue(s, a)
    requires IsItem(Step(s, a), i) && Step(s, a).items[i].queue != []
    ensures Mapped(Step(s, a), i) || i in Step(s, a).closing
  {
    if !IsItem(s, i) || s.items[i].queue == [] {
      FirstQueuedIsMapped(s, a, i);
    } else if Mapped(s, i) {
      StepOfMapped(s, a, i);
    } else {
      ClosingStaysWhileQueued(s, a, i);
    }
  }

  lemma ClosingStaysWhileQueued(s: State, a: Action, i: nat)
    requires MapInv(s) && Enabled(s, a) && i in s.closing && s.items[i].queue != []
    ensures i in Step(s, a).closing
  {
  }

  /** Draining leaves no residue: the one action that does is a data channel's unregistration that removes
      an item with connections still queued, and it always does. */
  lemma ResidueOnlyFromDroppedQueue(s: State, a: Action)
    requires Inv(s) && Enabled(s, a) && NoResidue(s)
    ensures NoResidue(Step(s, a)) <==> !DropsQueue(s, a)
  {
    if DropsQueue(s, a) {
      DroppedQueueIsResidue(s, a);
    } else {
      forall i | 0 <= i < |Step(s, a).items| && Step(s, a).items[i].queue != []
        ensures Mapped(Step(s, a), i) || i in Step(s, a).closing
      {
        NoDropNoResidue(s, a, i);
      }
    }
  }

  /** When every close has come to its end and no opener is active, each data connection ever handed over is
      closed or queued in a current item, unless a queue was dropped on the way. */
  lemma {:induction false} SettledConnections(s: State, actions: seq<Action>, t: State)
    requires Inv(s) && NoResidue(s) && Run(s, actions, t) && NeverDrops(s, actions)
    ensures NoResidue(t)
    ensures t.closing == {} && t.openers == map[] ==>
              forall conn | conn in t.owner :: conn in t.closed || QueuedInCurrent(t, conn)
    decreases |actions|
  {
    if actions != [] {
      StepKeepsInv(s, actions[0]);
      ResidueOnlyFromDroppedQueue(s, actions[0]);
      SettledConnections(Step(s, actions[0]), actions[1..], t);
    } else {
      forall conn | conn in t.owner && t.closing == {} && t.openers == map[]
        ensures conn in t.closed || QueuedInCurrent(t, conn)
      {
        assert At(t, conn, t.owner[conn]);
      }
    }
  }

  predicate QueuedInCurrent(s: State, conn: nat) {
    exists g :: g in s.connections && IsItem(s, s.connections[g]) && conn in s.items[s.connections[g]].queue
  }

  predicate NeverDrops(s: State, actions: seq<Action>)
    decreases |actions|
  {
    actions != [] ==>
      Bounded(s) && Enabled(s, actions[0]) && !DropsQueue(s, actions[0])
        && NeverDrops(Step(s, actions[0]), actions[1..])
  }

  /** The residue is real: a device with data channels only, whose QUIC data channel ends, leaves its TCP
      data connection queued in an item nobody can reach. */
  lemma DroppedQueueLeaks()
    ensures var actions := [RegisterTCPData("d", 1), RegisterQUICData("d", 7), UnregisterQUICData("d", 7)];
            exists t :: Run(Empty, actions, t) && t.connections == map[] && t.closing == {} && t.openers == map[]
                        && At(t, 1, Queued(0)) && 1 !in t.closed
  {
    assert TrimSpace("d") == "d";
    var s1 := Step(Empty, RegisterTCPData("d", 1));
    var s2 := Step(s1, RegisterQUICData("d", 7));
    var s3 := Step(s2, UnregisterQUICData("d", 7));
    assert WithItem(Empty, "d").items == [Item(None, None, None, [])] && WithItem(Empty, "d").connections["d"] == 0;
    assert s1.items == [Item(None, None, None, [] + [1])] && [] + [1] == [1];
    assert s2.items == [Item(None, Some(7), None, [1])];
    assert s3.items == [Item(None, None, None, [1])] && s3.connections == map[];
    var a := [RegisterTCPData("d", 1), RegisterQUICData("d", 7), UnregisterQUICData("d", 7)];
    assert a[1..] == [RegisterQUICData("d", 7), UnregisterQUICData("d", 7)]
           && a[1..][1..] == [UnregisterQUICData("d", 7)];
    assert a[1..][1..][1..] == [];
    assert Run(Empty, a, s3);
  }

  // ---------------------------------------------------------------- stale teardown

  /** The actions that take item i out of its place for device g. */
  predicate Removes(s: State, a: Action, g: string, i: nat)
    requires IsItem(s, i)
  {
    match a
    case RegisterTCPControl(h, _) => h == g
    case RegisterQUICControl(h, _, _) => h == g
    case Unregister(h) => h == g
    case CloseAll => true
    case CloseDevice(h) => !Blank(h) && TrimSpace(h) == g
    case UnregisterQUICControl(h, conn) => h == g && !Blank(g) && s.items[i].control == Some(conn)
    case UnregisterTCPControl(h, conn) => h == g && !Blank(g) && s.items[i].tcpControl == Some(conn)
    case CloseDeviceIfCurrent(h, expected) => !Blank(h) && TrimSpace(h) == g && expected == i
    case UnregisterQUICData(h, conn) =>
      !Blank(h) && TrimSpace(h) == g && s.items[i].control.None? && s.items[i].tcpControl.None?
        && s.items[i].data == Some(conn)
    case _ => false
  }

  lemma ControlsNeverChange(s: State, a: Action, i: nat)
    requires MapInv(s) && Enabled(s, a) && IsItem(s, i)
    ensures IsItem(Step(s, a), i)
    ensures Step(s, a).items[i].control == s.items[i].control && Step(s, a).items[i].tcpControl == s.items[i].tcpControl
  {
  }

  /** A device's item goes exactly by the actions that name it. */
  lemma LeavesExactlyWhenRemoved(s: State, a: Action, g: string, i: nat)
    requires MapInv(s) && Enabled(s, a) && Current(s, g, i)
    ensures Current(Step(s, a), g, i) <==> !Removes(s, a, g, i)
  {
  }

  /** The actions that may remove an item that has a control connection, said without the state. */
  predicate Names(a: Action, item: Item, g: string, i: nat) {
    match a
    case RegisterTCPControl(h, _) => h == g
    case RegisterQUICControl(h, _, _) => h == g
    case Unregister(h) => h == g
    case CloseAll => true
    case CloseDevice(h) => TrimSpace(h) == g
    case UnregisterQUICControl(h, conn) => h == g && item.control == Some(conn)
    case UnregisterTCPControl(h, conn) => h == g && item.tcpControl == Some(conn)
    case CloseDeviceIfCurrent(h, expected) => TrimSpace(h) == g && expected == i
    case _ => false
  }

  /** Stale teardown: an item with a control connection survives everything that does not name it: the
      unregistrations of older connections and of data channels, closes of older items, other devices. */
  lemma {:induction false} StaleTeardownIsHarmless(s: State, actions: seq<Action>, t: State, g: string, i: nat)
    requires Inv(s) && Run(s, actions, t) && Current(s, g, i)
    requires s.items[i].control.Some? || s.items[i].tcpControl.Some?
    requires forall k | 0 <= k < |actions| :: !Names(actions[k], s.items[i], g, i)
    ensures Current(t, g, i) && IsItem(t, i)
    ensures t.items[i].control == s.items[i].control && t.items[i].tcpControl == s.items[i].tcpControl
    decreases |actions|
  {
    if actions != [] {
      var s1 := Step(s, actions[0]);
      StepKeepsInv(s, actions[0]);
      LeavesExactlyWhenRemoved(s, actions[0], g, i);
      ControlsNeverChange(s, actions[0], i);
      assert forall k | 0 <= k < |actions[1..]| :: actions[1..][k] == actions[k + 1];
      forall k | 0 <= k < |actions[1..]| ensures !Names(actions[1..][k], s1.items[i], g, i) {
        assert !Names(actions[k + 1], s.items[i], g, i);
      }
      StaleTeardownIsHarmless(s1, actions[1..], t, g, i);
    }
  }

  // ---------------------------------------------------------------- what the calls do

  /** Every device but g has the item it had, and no such item but i has changed. */
  predicate OnlyTouches(s: State, t: State, g: string, i: nat) {
    && t.connections - {g} == s.connections - {g}
    && |s.items| <= |t.items|
    && (forall j | 0 <= j < |s.items| && j != i :: t.items[j] == s.items[j])
  }

  /** The old item of device g, if there is one, is now being closed. */
  predicate LeftToBeClosed(s: State, t: State, g: string) {
    t.closing == if g in s.connections then s.closing + {s.connections[g]} else s.closing
  }

  /** The device has a new item with exactly these connections and an empty queue, and its old one is closed. */
  predicate Installed(s: State, t: State, g: string, control: Option<nat>, data: Option<nat>, tcpControl: Option<nat>) {
    && Current(t, g, |s.items|) && |t.items| == |s.items| + 1
    && t.items[|s.items|] == Item(control, data, tcpControl, [])
    && OnlyTouches(s, t, g, |s.items|) && LeftToBeClosed(s, t, g)
    && t.closed == s.closed && t.owner == s.owner && t.openers == s.openers
  }

  /** Device g has lost its item, which is now being closed. Nothing else has changed. */
  predicate Removed(s: State, t: State, g: string) {
    && g !in t.connections && t.connections == s.connections - {g} && LeftToBeClosed(s, t, g)
    && t.items == s.items && t.closed == s.closed && t.owner == s.owner && t.openers == s.openers
  }

  /** A TCP control registration puts the device online with this connection, which can take it off again. */
  lemma TCPControlIsRegistered(s: State, g: string, conn: nat, other: nat)
    requires Bounded(s) && other != conn
    ensures var t := Step(s, RegisterTCPControl(g, conn));
            && Installed(s, t, g, None, None, Some(conn)) && Bounded(t)
            && Step(t, UnregisterTCPControl(g, other)) == t
            && (!Blank(g) ==> Removed(t, Step(t, UnregisterTCPControl(g, conn)), g))
  {
    var t := Step(s, RegisterTCPControl(g, conn));
    assert t.connections - {g} == s.connections - {g};
    assert t.items[|s.items|] == Item(None, None, Some(conn), []);
  }

  /** So does a QUIC control registration; an old client's connection carries the data as well. */
  lemma QUICControlIsRegistered(s: State, g: string, conn: nat, legacy: bool, other: nat)
    requires Bounded(s) && other != conn
    ensures var t := Step(s, RegisterQUICControl(g, conn, legacy));
            && Installed(s, t, g, Some(conn), if legacy then Some(conn) else None, None) && Bounded(t)
            && Step(t, UnregisterQUICControl(g, other)) == t
            && (!Blank(g) ==> Removed(t, Step(t, UnregisterQUICControl(g, conn)), g))
  {
    var t := Step(s, RegisterQUICControl(g, conn, legacy));
    assert t.connections - {g} == s.connections - {g};
    assert t.items[|s.items|] == Item(Some(conn), if legacy then Some(conn) else None, None, []);
  }

  /** The end of a control connection takes its device off, whatever data connections it has by then; the end of
      one that no longer controls the device does nothing. */
  lemma ControlIsUnregistered(s: State, g: string, conn: nat, i: nat)
    requires Bounded(s) && !Blank(g) && Current(s, g, i)
    ensures var t := Step(s, UnregisterTCPControl(g, conn));
            if s.items[i].tcpControl == Some(conn) then Removed(s, t, g) else t == s
    ensures var t := Step(s, UnregisterQUICControl(g, conn));
            if s.items[i].control == Some(conn) then Removed(s, t, g) else t == s
  {
  }

  /** A QUIC data registration gives the device this data channel and keeps its controls and its queue. */
  lemma QUICDataIsRegistered(s: State, g: string, conn: nat)
    requires Bounded(s)
    ensures var t := Step(s, RegisterQUICData(g, conn));
            var was := if g in s.connections then s.items[s.connections[g]] else Item(None, None, None, []);
            && g in t.connections && Bounded(t)
            && t.connections[g] == (if g in s.connections then s.connections[g] else |s.items|)
            && t.items[t.connections[g]] == was.(data := Some(conn))
            && OnlyTouches(s, t, g, t.connections[g]) && t.closing == s.closing && t.openers == s.openers
  {
    var t := Step(s, RegisterQUICData(g, conn));
    assert t.connections - {g} == s.connections - {g};
  }

  /** The end of a data channel clears it, if it is the device's, and the device stays online exactly if it has
      a control; the end of another one does nothing. */
  lemma QUICDataIsUnregistered(s: State, g: string, conn: nat)
    requires MapInv(s) && TrimSpace(g) == g != "" && g in s.connections
    ensures var t := Step(s, UnregisterQUICData(g, conn));
            var i := s.connections[g];
            var was := s.items[i];
            if was.data == Some(conn) then
              && (g in t.connections <==> was.control.Some? || was.tcpControl.Some?)
              && (g in t.connections ==> t.connections[g] == i)
              && t.items[i] == was.(data := None) && OnlyTouches(s, t, g, i) && t.closing == s.closing
            else t == s
  {
    var t := Step(s, UnregisterQUICData(g, conn));
    assert t.connections - {g} == s.connections - {g};
  }

  /** A TCP data registration puts the connection at the end of the device's queue, which holds 64, and closes
      it if there is no room; a device that was offline gets an item. */
  lemma TCPDataIsQueued(s: State, g: string, conn: nat)
    requires Bounded(s) && conn !in s.owner
    ensures var t := Step(s, RegisterTCPData(g, conn));
            var was := if g in s.connections then s.items[s.connections[g]] else Item(None, None, None, []);
            && g in t.connections && Bounded(t)
            && t.connections[g] == (if g in s.connections then s.connections[g] else |s.items|)
            && OnlyTouches(s, t, g, t.connections[g]) && t.closing == s.closing && t.openers == s.openers
            && t.items[t.connections[g]]
               == (if |was.queue| < 64 then was.(queue := was.queue + [conn]) else was)
            && t.closed == (if |was.queue| < 64 then s.closed else s.closed + {conn})
  {
    var t := Step(s, RegisterTCPData(g, conn));
    assert t.connections - {g} == s.connections - {g};
  }

  /** A close by name takes the device's item out of the map to be closed, whatever it holds; a close by item
      does so exactly if that is the current one. */
  lemma CloseRemoves(s: State, raw: string, expected: nat)
    requires Bounded(s)
    ensures Removed(s, Step(s, Unregister(raw)), raw)
    ensures TrimSpace(raw) != "" ==> Removed(s, Step(s, CloseDevice(raw)), TrimSpace(raw))
    ensures TrimSpace(raw) == "" ==> Step(s, CloseDevice(raw)) == s
    ensures TrimSpace(raw) != "" && Current(s, TrimSpace(raw), expected) ==>
              Removed(s, Step(s, CloseDeviceIfCurrent(raw, expected)), TrimSpace(raw))
    ensures TrimSpace(raw) == "" || !Current(s, TrimSpace(raw), expected) ==>
              Step(s, CloseDeviceIfCurrent(raw, expected)) == s
  {
    assert raw !in s.connections ==> s.connections - {raw} == s.connections;
    var g := TrimSpace(raw);
    assert g !in s.connections ==> s.connections - {g} == s.connections;
  }

  /** A shutdown leaves no device online and every item that was current to be closed. */
  lemma CloseAllRemovesAll(s: State)
    requires Bounded(s)
    ensures var t := Step(s, CloseAll);
            && t.connections == map[] && t.items == s.items && t.openers == s.openers
            && forall i :: i in t.closing <==> i in s.closing || Mapped(s, i)
  {
    forall i | Mapped(s, i) ensures i in s.connections.Values {
      var g :| g in s.connections && s.connections[g] == i;
    }
  }

  /** A call of OpenTCPStream gets the connection that has waited longest in the device's current item, and
      what the handshake then fails on is closed. */
  lemma OpenerTakesFirst(s: State, o: nat, g: string)
    requires Bounded(s) && o !in s.openers && g in s.connections && s.items[s.connections[g]].queue != []
    ensures var i := s.connections[g];
            var first, rest := s.items[i].queue[0], s.items[i].queue[1..];
            && Enabled(s, Lookup(o, g))
            && var looked := Step(s, Lookup(o, g));
            && Bounded(looked) && Enabled(looked, Receive(o)) && Enabled(looked, GiveUp(o))
            && looked.items == s.items && looked.connections == s.connections
            && Step(looked, GiveUp(o)) == s
            && var taken := Step(looked, Receive(o));
            && Bounded(taken) && o in taken.openers && taken.openers[o] == Holding(first)
            && taken.items[i] == s.items[i].(queue := rest) && OnlyTouches(s, taken, g, i)
            && Current(taken, g, i) && Enabled(taken, CloseHeld(o))
            && var closed := Step(taken, CloseHeld(o));
            && o !in closed.openers && closed.closed == s.closed + {first} && closed.items == taken.items
  {
    var looked := Step(s, Lookup(o, g));
    assert looked.openers - {o} == s.openers;
  }

  // ---------------------------------------------------------------- the manager

  /** What closeDeviceItem does when nothing comes in between: every queued connection is closed. */
  function Drain(s: State, i: nat): State
    requires Bounded(s) && i in s.closing
    decreases if IsItem(s, i) then |s.items[i].queue| else 0
  {
    if s.items[i].queue == [] then Step(s, DrainEnd(i))
    else
      DrainOneKeepsBounds(s, i);
      Drain(Step(s, DrainOne(i)), i)
  }

  lemma DrainOneKeepsBounds(s: State, i: nat)
    requires Bounded(s) && Enabled(s, DrainOne(i))
    ensures var t := Step(s, DrainOne(i));
            Bounded(t) && i in t.closing && IsItem(t, i) && t.items[i].queue == s.items[i].queue[1..]
  {
  }

  lemma {:induction false} DrainClosesTheQueue(s: State, i: nat)
    requires Inv(s) && i in s.closing
    ensures var t := Drain(s, i);
            && Inv(t) && t.closing == s.closing - {i} && t.connections == s.connections && t.openers == s.openers
            && |t.items| == |s.items| && t.items[i] == s.items[i].(queue := [])
            && (forall j | 0 <= j < |s.items| && j != i :: t.items[j] == s.items[j])
            && t.closed == s.closed + set conn | conn in s.items[i].queue
    decreases |s.items[i].queue|
  {
    hide DataInv;
    if s.items[i].queue == [] {
      StepKeepsInv(s, DrainEnd(i));
    } else {
      StepKeepsInv(s, DrainOne(i));
      DrainClosesTheQueue(Step(s, DrainOne(i)), i);
      var q := s.items[i].queue;
      assert q == [q[0]] + q[1..];
    }
  }

  /** The data channel that a new one replaces and that is closed then: not the same one, nor the control. */
  function ReplacedData(item: Item, conn: nat): (replaced: Option<nat>)
    ensures forall c :: replaced == Some(c) <==> item.data == Some(c) && c != conn && item.control != Some(c)
  {
    if item.data != Some(conn) && item.data != item.control then item.data else None
  }

  class DeviceConnection {
    var control: Option<nat>
    var data: Option<nat>
    var tcpControl: Option<nat>
    var tcpData: seq<nat>

    constructor (control: Option<nat>, data: Option<nat>, tcpControl: Option<nat>)
      ensures View() == Item(control, data, tcpControl, [])
    {
      this.control, this.data, this.tcpControl, this.tcpData := control, data, tcpControl, [];
    }

    ghost function View(): Item
      reads this
    {
      Item(control, data, tcpControl, tcpData)
    }

    method DrainQueue() returns (closed: seq<nat>)
      modifies this
      ensures View() == old(View()).(queue := []) && closed == old(tcpData)
    {
      closed := [];
      while tcpData != []
        invariant View() == old(View()).(queue := tcpData) && closed + tcpData == old(tcpData)
        decreases |tcpData|
      {
        closed, tcpData := closed + [tcpData[0]], tcpData[1..];
      }
    }
  }

  /** `cells[i]` is the object that item i stands for. */
  class Manager {
    var connections: map<string, DeviceConnection>
    ghost var state: State
    ghost var cells: seq<DeviceConnection>

    /** The map and the objects are what `state` says. */
    ghost predicate Mirrors()
      reads this, cells
    {
      && Bounded(state)
      && |cells| == |state.items|
      && (forall i, j | 0 <= i < j < |cells| :: cells[i] != cells[j])
      && (forall i | 0 <= i < |cells| :: cells[i].View() == state.items[i])
      && connections.Keys == state.connections.Keys
      && (forall g | g in connections :: connections[g] == cells[state.connections[g]])
    }

    ghost predicate Valid()
      reads this, cells
    {
      Mirrors() && Inv(state)
    }

    constructor ()
      ensures Valid() && state == Empty && cells == []
    {
      connections, state, cells := map[], Empty, [];
      new;
      EmptyHasInv();
    }

    method Add(guid: string, control: Option<nat>, data: Option<nat>, tcpControl: Option<nat>)
        returns (item: DeviceConnection)
      requires Mirrors() && guid !in connections
      modifies this
      ensures Mirrors() && state == Attach(old(state), guid, Item(control, data, tcpControl, []))
      ensures guid in connections && connections[guid] == item
      ensures old(cells) <= cells && forall k | |old(cells)| <= k < |cells| :: fresh(cells[k])
    {
      item := new DeviceConnection(control, data, tcpControl);
      connections, cells := connections[guid := item], cells + [item];
      state := Attach(state, guid, Item(control, data, tcpControl, []));
    }

    method FindOrMake(guid: string) returns (item: DeviceConnection)
      requires Mirrors()
      modifies this
      ensures Mirrors() && state == WithItem(old(state), guid) && guid in connections && connections[guid] == item
      ensures old(cells) <= cells && forall k | |old(cells)| <= k < |cells| :: fresh(cells[k])
    {
      if guid !in connections {
        item := Add(guid, None, None, None);
      } else {
        item := connections[guid];
      }
    }

    /** Put a new item in the place of the device's old one, which is returned to be closed. */
    method Install(guid: string, control: Option<nat>, data: Option<nat>, tcpControl: Option<nat>)
        returns (replaced: DeviceConnection?)
      requires Mirrors()
      modifies this
      ensures Mirrors() && state == Attach(Detach(old(state), guid), guid, Item(control, data, tcpControl, []))
      ensures old(cells) <= cells && forall k | |old(cells)| <= k < |cells| :: fresh(cells[k])
      ensures replaced == if guid in old(connections) then old(connections)[guid] else null
    {
      replaced := Remove(guid);
      var item := Add(guid, control, data, tcpControl);
    }

    method Remove(guid: string) returns (item: DeviceConnection?)
      requires Mirrors()
      modifies this
      ensures Mirrors() && state == Detach(old(state), guid) && cells == old(cells)
      ensures item == if guid in old(connections) then old(connections)[guid] else null
    {
      item := if guid in connections then connections[guid] else null;
      connections := connections - {guid};
      state := Detach(state, guid);
    }

    /** The select that sends to the channel or closes the connection. */
    method Enqueue(item: DeviceConnection, ghost i: nat, conn: nat)
      requires Mirrors() && i < |cells| && cells[i] == item
      modifies this`state, item
      ensures Mirrors() && state == SendData(old(state), i, conn)
    {
      if |item.tcpData| < QUEUE_CAPACITY {
        item.tcpData := item.tcpData + [conn];
      }
      state := SendData(state, i, conn);
    }

    /** The locked section of RegisterTCP. `replaced` is closed after the lock is released. */
    method RegisterTCP(guid: string, conn: nat, isData: bool) returns (replaced: DeviceConnection?)
      requires Valid() && (isData ==> conn !in state.owner)
      modifies this, cells
      ensures Valid()
      ensures state == Step(old(state), if isData then RegisterTCPData(guid, conn) else RegisterTCPControl(guid, conn))
      ensures old(cells) <= cells && forall k | |old(cells)| <= k < |cells| :: fresh(cells[k])
      ensures replaced == if !isData && guid in old(connections) then old(connections)[guid] else null
    {
      StepKeepsInv(state, if isData then RegisterTCPData(guid, conn) else RegisterTCPControl(guid, conn));
      if isData {
        var item := FindOrMake(guid);
        Enqueue(item, state.connections[guid], conn);
        replaced := null;
      } else {
        replaced := Install(guid, None, None, Some(conn));
      }
    }

    /** Make conn the item's QUIC data channel; the one it replaces, unless it also controls, is closed later. */
    method SetData(item: DeviceConnection, ghost i: nat, conn: nat) returns (replacedData: Option<nat>)
      requires Mirrors() && i < |cells| && cells[i] == item
      modifies this`state, item
      ensures Mirrors()
      ensures state == old(state).(items := old(state).items[i := old(state).items[i].(data := Some(conn))])
      ensures replacedData == ReplacedData(old(item.View()), conn)
    {
      replacedData := None;
      if item.data.Some? && item.data.value != conn && item.data != item.control {
        replacedData := item.data;
      }
      item.data := Some(conn);
      state := state.(items := state.items[i := state.items[i].(data := Some(conn))]);
    }

    /** The locked section of RegisterQUIC. */
    method RegisterQUIC(guid: string, conn: nat, isData: bool, legacy: bool)
        returns (replaced: DeviceConnection?, replacedData: Option<nat>)
      requires Valid()
      modifies this, cells
      ensures Valid()
      ensures state == Step(old(state), if isData then RegisterQUICData(guid, conn)
                                        else RegisterQUICControl(guid, conn, legacy))
      ensures old(cells) <= cells && forall k | |old(cells)| <= k < |cells| :: fresh(cells[k])
      ensures replaced == if !isData && guid in old(connections) then old(connections)[guid] else null
      ensures replacedData == if isData && guid in old(connections)
                              then ReplacedData(old(connections[guid].View()), conn) else None
    {
      StepKeepsInv(state, if isData then RegisterQUICData(guid, conn) else RegisterQUICControl(guid, conn, legacy));
      replaced, replacedData := null, None;
      if isData {
        var item := FindOrMake(guid);
        replacedData := SetData(item, state.connections[guid], conn);
      } else {
        replaced := Install(guid, Some(conn), if legacy then Some(conn) else None, None);
      }
    }

    /** The locked section of CloseDevice. */
    method CloseDevice(deviceGuid: string) returns (item: DeviceConnection?)
      requires Valid()
      modifies this
      ensures Valid() && cells == old(cells) && state == Step(old(state), Action.CloseDevice(deviceGuid))
      ensures var guid := TrimSpace(deviceGuid);
              item == if guid != "" && guid in old(connections) then old(connections)[guid] else null
    {
      StepKeepsInv(state, Action.CloseDevice(deviceGuid));
      var guid := TrimSpace(deviceGuid);
      if guid == "" {
        return null;
      }
      item := Remove(guid);
    }

    /** The locked section of CloseDeviceIfCurrent, called with an item looked up earlier. */
    method CloseDeviceIfCurrent(deviceGuid: string, expected: DeviceConnection, ghost i: nat) returns (ok: bool)
      requires Valid() && i < |cells| && cells[i] == expected
      modifies this
      ensures Valid() && cells == old(cells) && state == Step(old(state), Action.CloseDeviceIfCurrent(deviceGuid, i))
      ensures ok <==> !Blank(deviceGuid) && Current(old(state), TrimSpace(deviceGuid), i)
    {
      StepKeepsInv(state, Action.CloseDeviceIfCurrent(deviceGuid, i));
      var guid := TrimSpace(deviceGuid);
      if guid == "" || guid !in connections || connections[guid] != expected {
        return false;
      }
      var item := Remove(guid);
      return true;
    }

    /** The locked section of UnregisterTCPControl. */
    method UnregisterTCPControl(guid: string, conn: nat) returns (ok: bool)
      requires Valid()
      modifies this
      ensures Valid() && cells == old(cells) && state == Step(old(state), Action.UnregisterTCPControl(guid, conn))
      ensures ok <==> !Blank(guid) && guid in old(connections) && old(connections[guid].tcpControl) == Some(conn)
    {
      StepKeepsInv(state, Action.UnregisterTCPControl(guid, conn));
      if TrimSpace(guid) == "" || guid !in connections || connections[guid].tcpControl != Some(conn) {
        return false;
      }
      var item := Remove(guid);
      return true;
    }

    method ClearData(item: DeviceConnection, ghost i: nat)
      requires Mirrors() && i < |cells| && cells[i] == item
      modifies this`state, item
      ensures Mirrors() && state == old(state).(items := old(state).items[i := old(state).items[i].(data := None)])
    {
      item.data := None;
      state := state.(items := state.items[i := state.items[i].(data := None)]);
    }

    /** UnregisterQUICData: the item may go, and is then not closed. */
    method UnregisterQUICData(deviceGuid: string, conn: nat)
      requires Valid()
      modifies this, cells
      ensures Valid() && cells == old(cells) && state == Step(old(state), Action.UnregisterQUICData(deviceGuid, conn))
    {
      StepKeepsInv(state, Action.UnregisterQUICData(deviceGuid, conn));
      var guid := TrimSpace(deviceGuid);
      if guid != "" && guid in connections && connections[guid].data == Some(conn) {
        DropData(guid);
      }
    }

    method DropData(guid: string)
      requires Mirrors() && guid in connections
      modifies this, connections[guid]
      ensures Mirrors() && cells == old(cells)
      ensures var i := old(state).connections[guid];
              var item := old(state).items[i];
              var items := old(state).items[i := item.(data := None)];
              state == if item.control.None? && item.tcpControl.None?
                       then old(state).(items := items, connections := old(state).connections - {guid})
                       else old(state).(items := items)
    {
      var item := connections[guid];
      var uncontrolled := item.control.None? && item.tcpControl.None?;
      ClearData(item, state.connections[guid]);
      if uncontrolled {
        Unmap(guid);
      }
    }

    method Unmap(guid: string)
      requires Mirrors()
      modifies this`connections, this`state
      ensures Mirrors() && state == old(state).(connections := old(state).connections - {guid})
    {
      connections := connections - {guid};
      state := state.(connections := state.connections - {guid});
    }

    /** The queue of closeDeviceItem, drained without interference. */
    method CloseDeviceItem(item: DeviceConnection, ghost i: nat) returns (closed: seq<nat>)
      requires Valid() && i < |cells| && cells[i] == item && i in state.closing
      modifies this`state, item
      ensures Valid() && state == Drain(old(state), i)
      ensures item.tcpData == [] && closed == old(item.tcpData)
    {
      DrainClosesTheQueue(state, i);
      closed := item.DrainQueue();
      state := Drain(state, i);
    }
  }
}
