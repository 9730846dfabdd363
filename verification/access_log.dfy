/**
 The access-log writer: many producers, a bounded queue, one runner that writes batches, and a stop that
 drains. Producers and the runner interleave; each channel operation, insertion and counter update that
 another goroutine can see is an action of its own.
 */
module AccessLog {
  import opened Sequences

  type Record = string

  const DEFAULT_QUEUE_SIZE := 8192
  const DEFAULT_BATCH_SIZE := 200
  const MAXIMUM_BATCH_SIZE := 1000

  /** Where the runner stands. A flush goes on to `next` when its rows are written and counted. */
  datatype Phase =
    | Selecting
    | Draining
    | Exited
    | Writing(next: Phase)
    | Counting(next: Phase, inserted: bool)

  datatype Flush = Flush(rows: seq<Record>, inserted: bool)

  /** `sent` and `refused` are producers past the queue but not yet at their counter; both still hold the
      read lock. `accepted`, `offered` and `flushes` are history. */
  datatype State = State(
    capacity: nat,
    batchSize: nat,
    queue: seq<Record>,
    batch: seq<Record>,
    stopping: bool,
    phase: Phase,
    table: seq<Record>,
    enqueued: nat, dropped: nat, written: nat, batches: nat, writeErrors: nat,
    sent: nat, refused: nat,
    accepted: seq<Record>, offered: nat, flushes: seq<Flush>)

  datatype Action =
    | Send(record: Record)
    | FindFull
    | CountSent
    | CountRefused
    | StopWriter
    | Receive
    | Tick
    | SeeCancel
    | FindEmpty
    | Write(ok: bool)
    | CountBatch

  function Initial(capacity: nat, batchSize: nat): State {
    State(capacity, batchSize, [], [], false, Selecting, [], 0, 0, 0, 0, 0, 0, 0, [], 0, [])
  }

  /** The writer's lock waits for the producers inside; the runner acts by its phase. */
  predicate Enabled(s: State, a: Action) {
    match a
    case Send(_) => !s.stopping && |s.queue| < s.capacity
    case FindFull => !s.stopping && |s.queue| >= s.capacity
    case CountSent => s.sent > 0
    case CountRefused => s.refused > 0
    case StopWriter => s.sent == 0 && s.refused == 0
    case Receive => (s.phase.Selecting? || s.phase.Draining?) && s.queue != []
    case Tick => s.phase.Selecting?
    case SeeCancel => s.phase.Selecting? && s.stopping
    case FindEmpty => s.phase.Draining? && s.queue == []
    case Write(_) => s.phase.Writing?
    case CountBatch => s.phase.Counting?
  }

  /** `flush`: nothing to do for an empty batch. */
  function StartFlush(s: State, next: Phase): State {
    s.(phase := if s.batch == [] then next else Writing(next))
  }

  function AfterReceive(s: State): State
    requires s.queue != []
  {
    var s1 := s.(queue := s.queue[1..], batch := s.batch + [s.queue[0]]);
    if |s1.batch| >= s.batchSize then StartFlush(s1, s.phase) else s1
  }

  function AfterWrite(s: State, ok: bool): State
    requires s.phase.Writing?
  {
    s.(table := if ok then s.table + s.batch else s.table,
       flushes := s.flushes + [Flush(s.batch, ok)], phase := Counting(s.phase.next, ok))
  }

  function AfterCount(s: State): State
    requires s.phase.Counting?
  {
    var n := |s.batch|;
    var s1 := s.(batch := [], phase := s.phase.next);
    if s.phase.inserted then s1.(written := s.written + n, batches := s.batches + 1)
    else s1.(dropped := s.dropped + n, writeErrors := s.writeErrors + 1)
  }

  function Step(s: State, a: Action): State
    requires Enabled(s, a)
  {
    match a
    case Send(r) => s.(queue := s.queue + [r], accepted := s.accepted + [r], offered := s.offered + 1,
                       sent := s.sent + 1)
    case FindFull => s.(offered := s.offered + 1, refused := s.refused + 1)
    case CountSent => s.(sent := s.sent - 1, enqueued := s.enqueued + 1)
    case CountRefused => s.(refused := s.refused - 1, dropped := s.dropped + 1)
    case StopWriter => s.(stopping := true)
    case Receive => AfterReceive(s)
    case Tick => StartFlush(s, Selecting)
    case SeeCancel => s.(phase := Draining)
    case FindEmpty => StartFlush(s, Exited)
    case Write(ok) => AfterWrite(s, ok)
    case CountBatch => AfterCount(s)
  }

  // ---------------------------------------------------------------- what every action keeps

  function Rows(flushes: seq<Flush>): seq<Record> {
    if flushes == [] then [] else Rows(flushes[..|flushes| - 1]) + flushes[|flushes| - 1].rows
  }

  function InsertedRows(flushes: seq<Flush>): seq<Record> {
    if flushes == [] then []
    else
      var last := flushes[|flushes| - 1];
      InsertedRows(flushes[..|flushes| - 1]) + if last.inserted then last.rows else []
  }

  function InsertedBatches(flushes: seq<Flush>): nat {
    if flushes == [] then 0
    else InsertedBatches(flushes[..|flushes| - 1]) + if flushes[|flushes| - 1].inserted then 1 else 0
  }

  /** Rows of the batch that are not part of the flush history yet. */
  function Unwritten(s: State): seq<Record> {
    if s.phase.Counting? then [] else s.batch
  }

  predicate GoodPhase(s: State) {
    && (match s.phase
        case Selecting => true
        case Draining => s.stopping
        case Exited => s.stopping && s.queue == [] && s.batch == []
        case Writing(next) => s.batch != [] && GoodNext(s, next)
        case Counting(next, inserted) =>
          GoodNext(s, next) && s.flushes != [] && s.flushes[|s.flushes| - 1] == Flush(s.batch, inserted))
    && (s.phase.Selecting? || s.phase.Draining? ==> |s.batch| < s.batchSize)
  }

  predicate GoodNext(s: State, next: Phase) {
    next == Selecting || (next == Draining && s.stopping) || (next == Exited && s.stopping && s.queue == [])
  }

  ghost predicate Inv(s: State) {
    && s.batchSize > 0 && |s.queue| <= s.capacity && |s.batch| <= s.batchSize
    && GoodPhase(s)
    && (s.stopping ==> s.sent == 0 && s.refused == 0)
    // Nothing is lost, doubled or reordered on the way from the producers to the flushes.
    && s.accepted == Rows(s.flushes) + Unwritten(s) + s.queue
    && s.table == InsertedRows(s.flushes)
    && (forall f | f in s.flushes :: 0 < |f.rows| <= s.batchSize)
    // The counters.
    && s.enqueued + s.sent == |s.accepted|
    && s.offered == s.written + s.dropped + |s.queue| + |s.batch| + s.refused
    && |s.table| == s.written + (if s.phase.Counting? && s.phase.inserted then |s.batch| else 0)
    && s.batches + (if s.phase.Counting? && s.phase.inserted then 1 else 0) == InsertedBatches(s.flushes)
    && s.batches + s.writeErrors + (if s.phase.Counting? then 1 else 0) == |s.flushes|
  }

  lemma InitialHasInv(capacity: nat, batchSize: nat)
    requires batchSize > 0
    ensures Inv(Initial(capacity, batchSize))
  {
  }

  lemma ReceiveKeepsInv(s: State)
    requires Inv(s) && s.queue != [] && (s.phase.Selecting? || s.phase.Draining?)
    ensures Inv(AfterReceive(s))
  {
    assert s.batch + s.queue == s.batch + [s.queue[0]] + s.queue[1..];
    assert Rows(s.flushes) + s.batch + s.queue == Rows(s.flushes) + (s.batch + [s.queue[0]]) + s.queue[1..];
  }

  lemma WriteKeepsInv(s: State, ok: bool)
    requires Inv(s) && s.phase.Writing?
    ensures Inv(AfterWrite(s, ok))
  {
  }

  lemma CountBatchKeepsInv(s: State)
    requires Inv(s) && s.phase.Counting?
    ensures Inv(AfterCount(s))
  {
  }

  lemma SendKeepsInv(s: State, r: Record)
    requires Inv(s) && Enabled(s, Send(r))
    ensures Inv(Step(s, Send(r)))
  {
  }

  lemma OtherActionKeepsInv(s: State, a: Action)
    requires Inv(s) && Enabled(s, a) && !a.Send? && !a.Receive? && !a.Write? && !a.CountBatch?
    ensures Inv(Step(s, a))
  {
  }

  /** Every action of every goroutine keeps the conservation laws. */
  lemma StepKeepsInv(s: State, a: Action)
    requires Inv(s) && Enabled(s, a)
    ensures Inv(Step(s, a))
  {
    hide Inv;
    match a
    case Send(r) => SendKeepsInv(s, r);
    case Receive => ReceiveKeepsInv(s);
    case Write(ok) => WriteKeepsInv(s, ok);
    case CountBatch => CountBatchKeepsInv(s);
    case _ => OtherActionKeepsInv(s, a);
  }

  predicate Run(s: State, actions: seq<Action>, t: State)
    decreases |actions|
  {
    if actions == [] then t == s
    else Enabled(s, actions[0]) && Run(Step(s, actions[0]), actions[1..], t)
  }

  lemma {:induction false} RunKeepsInv(s: State, actions: seq<Action>, t: State)
    requires Inv(s) && Run(s, actions, t)
    ensures Inv(t) && t.batchSize == s.batchSize && t.capacity == s.capacity
    decreases |actions|
  {
    hide Inv;
    if actions != [] {
      StepKeepsInv(s, actions[0]);
      RunKeepsInv(Step(s, actions[0]), actions[1..], t);
    }
  }

  predicate Offers(a: Action) {
    a.Send? || a.FindFull?
  }

  function Offered(actions: seq<Action>): nat {
    if actions == [] then 0 else Offered(actions[..|actions| - 1]) + if Offers(actions[|actions| - 1]) then 1 else 0
  }

  function Sent(actions: seq<Action>): seq<Record> {
    if actions == [] then []
    else Sent(actions[..|actions| - 1]) + if actions[|actions| - 1].Send? then [actions[|actions| - 1].record] else []
  }

  lemma {:induction false} OfferedFront(a: Action, rest: seq<Action>)
    ensures Offered([a] + rest) == (if Offers(a) then 1 else 0) + Offered(rest)
    ensures Sent([a] + rest) == (if a.Send? then [a.record] else []) + Sent(rest)
    decreases |rest|
  {
    if rest == [] {
      assert [a] + rest == [a] && [a][..0] == [];
    } else {
      var n := |rest| - 1;
      OfferedFront(a, rest[..n]);
      assert ([a] + rest)[..n + 1] == [a] + rest[..n] && ([a] + rest)[n + 1] == rest[n];
    }
  }

  /** `offered` and `accepted` are what the run's producers offered and got into the queue. */
  lemma {:induction false} HistoryIsTheRun(s: State, actions: seq<Action>, t: State)
    requires Run(s, actions, t)
    ensures t.offered == s.offered + Offered(actions) && t.accepted == s.accepted + Sent(actions)
    decreases |actions|
  {
    if actions != [] {
      HistoryIsTheRun(Step(s, actions[0]), actions[1..], t);
      OfferedFront(actions[0], actions[1..]);
      assert actions == [actions[0]] + actions[1..];
    }
  }

  /** Conservation at every moment of every run. */
  lemma Conservation(capacity: nat, batchSize: nat, actions: seq<Action>, t: State)
    requires batchSize > 0 && Run(Initial(capacity, batchSize), actions, t)
    ensures Offered(actions) == t.written + t.dropped + |t.queue| + |t.batch| + t.refused
    ensures Sent(actions) == Rows(t.flushes) + Unwritten(t) + t.queue && t.table == InsertedRows(t.flushes)
    ensures |t.batch| <= batchSize && |t.queue| <= capacity && forall f | f in t.flushes :: 0 < |f.rows| <= batchSize
  {
    InitialHasInv(capacity, batchSize);
    RunKeepsInv(Initial(capacity, batchSize), actions, t);
    HistoryIsTheRun(Initial(capacity, batchSize), actions, t);
  }

  /** When the runner has exited, which is when Stop returns nil: everything offered was written or counted
      as dropped, and the table holds what was accepted, in order, less whole failed batches. */
  lemma StoppedAccountsForAll(capacity: nat, batchSize: nat, actions: seq<Action>, t: State)
    requires batchSize > 0 && Run(Initial(capacity, batchSize), actions, t) && t.phase == Exited
    ensures t.queue == [] && t.batch == []
    ensures Offered(actions) == t.written + t.dropped && t.enqueued == |Sent(actions)|
    ensures Sent(actions) == Rows(t.flushes) && t.table == InsertedRows(t.flushes) && t.written == |t.table|
    ensures t.batches == InsertedBatches(t.flushes) && t.batches + t.writeErrors == |t.flushes|
  {
    InitialHasInv(capacity, batchSize);
    RunKeepsInv(Initial(capacity, batchSize), actions, t);
    HistoryIsTheRun(Initial(capacity, batchSize), actions, t);
    assert t.accepted == Rows(t.flushes) + [] + [];
    assert Initial(capacity, batchSize).accepted + Sent(actions) == Sent(actions);
  }

  /** After Stop, what a draining runner has left to do. */
  function Rank(s: State): nat {
    match s.phase
    case Exited => 0
    case Counting(next, _) => if next == Exited then 1 else 3 * |s.queue| + 4
    case Writing(next) => if next == Exited then 2 else 3 * |s.queue| + 5
    case _ => 3 * |s.queue| + 3
  }

  predicate Finishing(s: State) {
    s.stopping && match s.phase
                  case Draining => true
                  case Exited => true
                  case Writing(next) => next != Selecting
                  case Counting(next, _) => next != Selecting
                  case Selecting => false
  }

  predicate RunnerAction(a: Action) {
    a.Receive? || a.FindEmpty? || a.Write? || a.CountBatch?
  }

  /** The drain comes to its end: the runner can always act, and each act leaves it less to do. */
  lemma DrainEnds(s: State, a: Action)
    requires Inv(s) && Finishing(s)
    ensures s.phase != Exited ==>
              Enabled(s, Receive) || Enabled(s, FindEmpty) || Enabled(s, CountBatch) || Enabled(s, Write(true))
    ensures Enabled(s, a) ==> Finishing(Step(s, a)) && (RunnerAction(a) ==> Rank(Step(s, a)) < Rank(s))
    ensures Enabled(s, a) && !RunnerAction(a) ==> Rank(Step(s, a)) == Rank(s)
  {
  }

  // ---------------------------------------------------------------- what the actions do

  /** After Stop nothing more is offered or accepted, whatever the goroutines do. */
  lemma {:induction false} StoppedTakesNothing(s: State, actions: seq<Action>, t: State)
    requires Run(s, actions, t) && s.stopping
    ensures t.stopping && t.accepted == s.accepted && t.offered == s.offered
    decreases |actions|
  {
    if actions != [] {
      StoppedTakesNothing(Step(s, actions[0]), actions[1..], t);
    }
  }

  /** Before it, a record is taken to the end of the queue exactly while that is not full, and else refused. */
  lemma OfferIsTakenIffRoom(s: State, r: Record)
    requires !s.stopping
    ensures Enabled(s, Send(r)) <==> |s.queue| < s.capacity
    ensures Enabled(s, FindFull) <==> |s.queue| >= s.capacity
    ensures Enabled(s, Send(r)) ==>
              var t := Step(s, Send(r));
              t.queue == s.queue + [r] && Enabled(t, CountSent) && Step(t, CountSent).enqueued == s.enqueued + 1
    ensures Enabled(s, FindFull) ==>
              var t := Step(s, FindFull);
              t.queue == s.queue && Enabled(t, CountRefused) && Step(t, CountRefused).dropped == s.dropped + 1
  {
  }

  /** The whole batch has been given to the database, which took it or did not, and the runner goes on. */
  predicate BatchWritten(s: State, t: State, batch: seq<Record>, ok: bool) {
    && t.batch == [] && t.queue == s.queue
    && (if ok then
          t.table == s.table + batch && t.written == s.written + |batch| && t.batches == s.batches + 1
          && t.dropped == s.dropped && t.writeErrors == s.writeErrors
        else
          t.table == s.table && t.dropped == s.dropped + |batch| && t.writeErrors == s.writeErrors + 1
          && t.written == s.written && t.batches == s.batches)
  }

  /** A tick of the timer has the waiting rows written, without waiting for a full batch. */
  lemma TickWrites(s: State, ok: bool)
    requires s.phase == Selecting && s.batch != []
    ensures Enabled(s, Tick) && Enabled(Step(s, Tick), Write(ok))
    ensures var t := Step(Step(s, Tick), Write(ok));
            Enabled(t, CountBatch) && BatchWritten(s, Step(t, CountBatch), s.batch, ok)
            && Step(t, CountBatch).phase == Selecting
  {
  }

  /** A row received that fills the batch has it written at once; another one waits in it. */
  lemma FullBatchIsWritten(s: State, ok: bool)
    requires (s.phase == Selecting || s.phase == Draining) && s.queue != []
    ensures var t := Step(s, Receive);
            t.batch == s.batch + [s.queue[0]] && t.queue == s.queue[1..]
            && if |s.batch| + 1 >= s.batchSize then
                 Enabled(t, Write(ok))
                 && var u := Step(t, Write(ok));
                 Enabled(u, CountBatch) && BatchWritten(t, Step(u, CountBatch), s.batch + [s.queue[0]], ok)
                 && Step(u, CountBatch).phase == s.phase
               else t.phase == s.phase
  {
  }

  /** A stopped runner leaves its wait, and exits when it has found the queue empty and the rest is written. */
  lemma CancelDrains(s: State, ok: bool)
    requires s.phase == Selecting && s.stopping
    ensures Enabled(s, SeeCancel) && Step(s, SeeCancel) == s.(phase := Draining)
    ensures s.queue == [] ==>
              var t := Step(s, SeeCancel);
              Enabled(t, FindEmpty)
              && if s.batch == [] then Step(t, FindEmpty) == s.(phase := Exited)
                 else
                   var u := Step(t, FindEmpty);
                   Enabled(u, Write(ok)) && Enabled(Step(u, Write(ok)), CountBatch)
                   && BatchWritten(s, Step(Step(u, Write(ok)), CountBatch), s.batch, ok)
                   && Step(Step(u, Write(ok)), CountBatch).phase == Exited
  {
  }

  // ---------------------------------------------------------------- one batch insertion

  datatype Answer = Inserted | Busy | Refused

  const WRITE_MAX_ATTEMPTS := 3
  const RETRY_DELAYS := 2

  /** The attempt at which writeAccessLogBatch stops. */
  function LastAttempt(answers: nat -> Answer): nat {
    if answers(0) != Busy then 0 else if answers(1) != Busy then 1 else 2
  }

  // ---------------------------------------------------------------- the writer

  function Batches(flushes: seq<Flush>): seq<seq<Record>> {
    seq(|flushes|, i requires 0 <= i < |flushes| => flushes[i].rows)
  }

  /** `state` is the state between two actions of the runner with no producer inside Enqueue. */
  class AccessLogWriter {
    const capacity: nat
    const batchSize: nat
    var queue: seq<Record>
    var batch: seq<Record>
    var stopping: bool
    var table: seq<Record>
    var enqueued: nat
    var dropped: nat
    var written: nat
    var batches: nat
    var writeErrors: nat
    ghost var state: State

    ghost predicate Mirrors()
      reads this
    {
      && state.capacity == capacity && state.batchSize == batchSize > 0
      && state.queue == queue && state.batch == batch && state.stopping == stopping && state.table == table
      && state.enqueued == enqueued && state.dropped == dropped && state.written == written
      && state.batches == batches && state.writeErrors == writeErrors
      && state.sent == 0 && state.refused == 0
    }

    ghost predicate Valid()
      reads this
    {
      Mirrors() && Inv(state)
    }

    /** NewAccessLogWriter */
    constructor (queueSize: int, batchSize: int)
      ensures Valid() && state == Initial(capacity, this.batchSize)
      ensures this.batchSize == if batchSize <= 0 then 200 else if batchSize > 1000 then 1000 else batchSize
      ensures capacity == if queueSize > 0 then queueSize else 8192
    {
      this.capacity := if queueSize <= 0 then DEFAULT_QUEUE_SIZE else queueSize;
      this.batchSize := if batchSize <= 0 then DEFAULT_BATCH_SIZE
                        else if batchSize > MAXIMUM_BATCH_SIZE then MAXIMUM_BATCH_SIZE else batchSize;
      queue, batch, stopping, table := [], [], false, [];
      enqueued, dropped, written, batches, writeErrors := 0, 0, 0, 0, 0;
      new;
      state := Initial(capacity, this.batchSize);
      InitialHasInv(capacity, this.batchSize);
    }

    method Enqueue(input: Record) returns (ok: bool)
      requires Valid()
      modifies this
      ensures Valid()
      ensures old(stopping) ==> !ok && state == old(state)
      ensures !old(stopping) ==> ok == (|old(queue)| < capacity)
      ensures queue == if ok then old(queue) + [input] else old(queue)
      ensures dropped == if ok || old(stopping) then old(dropped) else old(dropped) + 1
      ensures !old(stopping) ==>
                state == if ok then Step(Step(old(state), Send(input)), CountSent)
                         else Step(Step(old(state), FindFull), CountRefused)
    {
      if stopping {
        return false;
      }
      if |queue| < capacity {
        EnqueueKeepsInv(state, input);
        state := Step(Step(state, Send(input)), CountSent);
        queue := queue + [input];
        enqueued := enqueued + 1;
        return true;
      } else {
        RefuseKeepsInv(state);
        state := Step(Step(state, FindFull), CountRefused);
        dropped := dropped + 1;
        return false;
      }
    }

    /** Stop, up to the wait for the runner. */
    method Stop()
      requires Valid()
      modifies this`stopping, this`state
      ensures Valid() && stopping && state == Step(old(state), StopWriter)
    {
      StepKeepsInv(state, StopWriter);
      state := Step(state, StopWriter);
      stopping := true;
    }

    /** writeAccessLogBatch: a busy database is tried three times; the rows go in at most once. */
    method WriteAccessLogBatch(rows: seq<Record>, answers: nat -> Answer) returns (retries: nat, ok: bool)
      modifies this`table
      ensures ok <==> answers(0) == Inserted
                      || (answers(0) == Busy && answers(1) == Inserted)
                      || (answers(0) == Busy && answers(1) == Busy && answers(2) == Inserted)
      ensures ok <==> answers(LastAttempt(answers)) == Inserted
      ensures retries == LastAttempt(answers)
      ensures table == old(table) + if ok then rows else []
    {
      var attempt := 0;
      while true
        invariant attempt <= LastAttempt(answers) && table == old(table)
        decreases WRITE_MAX_ATTEMPTS - attempt
      {
        if answers(attempt) == Inserted {
          table := table + rows;
          return attempt, true;
        }
        if answers(attempt) != Busy || attempt >= RETRY_DELAYS {
          return attempt, false;
        }
        attempt := attempt + 1;
      }
    }

    /** The closure `flush` on a batch that is not empty; the database gives these answers. */
    method FlushBatch(answers: nat -> Answer)
      requires Valid() && state.phase.Writing?
      modifies this
      ensures Valid() && batch == []
      ensures state == AfterCount(AfterWrite(old(state), answers(LastAttempt(answers)) == Inserted))
      ensures table == old(table) + if answers(LastAttempt(answers)) == Inserted then old(batch) else []
      ensures written + dropped == old(written) + old(dropped) + |old(batch)|
    {
      hide Inv;
      var rowCount := |batch|;
      var retries, ok := WriteAccessLogBatch(batch, answers);
      FlushKeepsInv(state, ok);
      state := AfterCount(AfterWrite(state, ok));
      if ok {
        written := written + rowCount;
        batches := batches + 1;
      } else {
        dropped := dropped + rowCount;
        writeErrors := writeErrors + 1;
      }
      batch := [];
    }

    /** One receive of the drain, with the flush of a full batch. */
    method DrainOne(database: nat -> nat -> Answer)
      requires Valid() && state.phase == Draining && queue != []
      modifies this
      ensures Valid() && state == DrainStep(old(state), database)
    {
      hide Inv;
      ReceiveKeepsInv(state);
      state := AfterReceive(state);
      batch, queue := batch + [queue[0]], queue[1..];
      if |batch| >= batchSize {
        FlushBatch(database(batches + writeErrors));
      }
    }

    /** The runner after it has seen the cancellation: the queue is emptied in full batches, and the rest is
        flushed. */
    method DrainAndExit(database: nat -> nat -> Answer)
      requires Valid() && state.phase == Draining
      modifies this
      ensures Valid() && state.phase == Exited && queue == [] && batch == []
      ensures state == Drained(old(state), database)
    {
      hide Inv;
      while queue != []
        invariant Valid() && state.phase == Draining
        invariant Drained(state, database) == Drained(old(state), database)
        decreases |queue|
      {
        DrainStepFlushes(state, database);
        DrainOne(database);
      }
      ExitKeepsInv(state);
      state := StartFlush(state, Exited);
      if batch != [] {
        FlushBatch(database(batches + writeErrors));
      }
    }
  }

  lemma EnqueueKeepsInv(s: State, input: Record)
    requires Inv(s) && Enabled(s, Send(input))
    ensures Inv(Step(Step(s, Send(input)), CountSent))
  {
  }

  lemma RefuseKeepsInv(s: State)
    requires Inv(s) && Enabled(s, FindFull)
    ensures Inv(Step(Step(s, FindFull), CountRefused))
  {
  }

  lemma FlushKeepsInv(s: State, ok: bool)
    requires Inv(s) && s.phase.Writing?
    ensures Inv(AfterCount(AfterWrite(s, ok)))
  {
    hide Inv;
    WriteKeepsInv(s, ok);
    CountBatchKeepsInv(AfterWrite(s, ok));
  }

  lemma ExitKeepsInv(s: State)
    requires Inv(s) && s.phase == Draining && s.queue == []
    ensures Inv(StartFlush(s, Exited))
  {
  }

  /** A flush with the answers that the database gives to the next batch. */
  function FlushStep(s: State, database: nat -> nat -> Answer): State
    requires s.phase.Writing?
  {
    var answers := database(s.batches + s.writeErrors);
    AfterCount(AfterWrite(s, answers(LastAttempt(answers)) == Inserted))
  }

  function DrainStep(s: State, database: nat -> nat -> Answer): State
    requires s.phase == Draining && s.queue != []
  {
    var s1 := AfterReceive(s);
    if s1.phase.Writing? then FlushStep(s1, database) else s1
  }

  lemma DrainStepFlushes(s: State, database: nat -> nat -> Answer)
    requires s.batchSize > 0 && s.phase == Draining && s.queue != []
    ensures var t := DrainStep(s, database);
            var rows := s.batch + [s.queue[0]];
            && t.phase == Draining && t.queue == s.queue[1..] && t.batchSize == s.batchSize
            && t.accepted == s.accepted && t.offered == s.offered
            && if |rows| < s.batchSize then t.batch == rows && t.flushes == s.flushes
               else t.batch == [] && Batches(t.flushes) == Batches(s.flushes) + [rows]
  {
  }

  /** What the drain of a stopped writer comes to. */
  function Drained(s: State, database: nat -> nat -> Answer): State
    requires s.batchSize > 0 && s.phase == Draining
    decreases |s.queue|
  {
    if s.queue != [] then
      DrainStepFlushes(s, database);
      Drained(DrainStep(s, database), database)
    else if s.batch != [] then FlushStep(StartFlush(s, Exited), database)
    else StartFlush(s, Exited)
  }

  lemma DrainedEmpty(s: State, database: nat -> nat -> Answer)
    requires 0 < s.batchSize && |s.batch| < s.batchSize && s.phase == Draining && s.queue == []
    ensures var t := Drained(s, database);
            && t.phase == Exited && t.queue == [] && t.batch == [] && t.accepted == s.accepted && t.offered == s.offered
            && Batches(t.flushes) == Batches(s.flushes) + Chunks(s.batch, s.batchSize)
  {
  }

  lemma DrainedStep(s: State, database: nat -> nat -> Answer)
    requires 0 < s.batchSize && s.phase == Draining && s.queue != []
    ensures DrainStep(s, database).phase == Draining && DrainStep(s, database).batchSize == s.batchSize
    ensures Drained(s, database) == Drained(DrainStep(s, database), database)
  {
    DrainStepFlushes(s, database);
  }

  /** The drain flushes the rows it finds in runs of batchSize and a rest, in order. */
  lemma {:induction false} DrainFlushesChunks(s: State, database: nat -> nat -> Answer)
    requires 0 < s.batchSize && |s.batch| < s.batchSize && s.phase == Draining
    ensures var t := Drained(s, database);
            && t.phase == Exited && t.queue == [] && t.batch == [] && t.accepted == s.accepted && t.offered == s.offered
            && Batches(t.flushes) == Batches(s.flushes) + Chunks(s.batch + s.queue, s.batchSize)
    decreases |s.queue|
  {
    hide Drained, DrainStep, Batches, Chunks;
    if s.queue == [] {
      DrainedEmpty(s, database);
      assert s.batch + s.queue == s.batch;
    } else {
      DrainStepFlushes(s, database);
      DrainedStep(s, database);
      var rows := s.batch + [s.queue[0]];
      var t := DrainStep(s, database);
      DrainFlushesChunks(t, database);
      assert s.batch + s.queue == rows + s.queue[1..];
      if |rows| >= s.batchSize {
        ChunkOff(rows, s.queue[1..], s.batchSize);
        assert [] + t.queue == t.queue;
      }
    }
  }

  /** If the database takes every batch, a drain loses nothing of what it finds. */
  lemma {:induction false} HealthyDrainWritesAll(s: State, database: nat -> nat -> Answer)
    requires 0 < s.batchSize && |s.batch| < s.batchSize && s.phase == Draining
    requires forall n: nat :: database(n)(0) == Inserted
    ensures var t := Drained(s, database);
            t.table == s.table + s.batch + s.queue && t.dropped == s.dropped
            && t.written == s.written + |s.batch| + |s.queue|
    decreases |s.queue|
  {
    hide Drained;
    if s.queue == [] {
      DrainedLast(s, database);
      assert s.table + s.batch + s.queue == s.table + s.batch;
    } else {
      DrainedStep(s, database);
      HealthyStep(s, database);
      var t := DrainStep(s, database);
      HealthyDrainWritesAll(t, database);
      assert s.table + s.batch + s.queue == s.table + (s.batch + [s.queue[0]]) + s.queue[1..];
      assert t.batch == [] ==> t.table + t.batch == t.table;
    }
  }

  lemma DrainedLast(s: State, database: nat -> nat -> Answer)
    requires 0 < s.batchSize && s.phase == Draining && s.queue == []
    requires database(s.batches + s.writeErrors)(0) == Inserted
    ensures var t := Drained(s, database);
            t.table == s.table + s.batch && t.dropped == s.dropped && t.written == s.written + |s.batch|
  {
  }

  lemma HealthyStep(s: State, database: nat -> nat -> Answer)
    requires 0 < s.batchSize && |s.batch| < s.batchSize && s.phase == Draining && s.queue != []
    requires database(s.batches + s.writeErrors)(0) == Inserted
    ensures var t := DrainStep(s, database);
            && t.phase == Draining && t.batchSize == s.batchSize && |t.batch| < t.batchSize && t.queue == s.queue[1..]
            && t.table + t.batch == s.table + (s.batch + [s.queue[0]]) && t.dropped == s.dropped
            && t.written + |t.batch| == s.written + |s.batch| + 1
  {
  }
}
