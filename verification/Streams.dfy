/**
 The streams of an RPC connection as a protocol: every critical section of the shared map and every
 single write is one step, taken by any task at any time.
 */
module Streams {
  type StreamId = nat
  type TaskId = nat
  type Chunk = seq<int>

  /** A record of the shared map; `write` tells whether it holds the write half of its stream. */
  datatype Rec = Rec(write: bool, q: seq<Chunk>, ended: bool)

  /** Where a task that holds a write half stands: before the lock, writing a batch, or shutting down. */
  datatype Pc = AtLock | Writing(items: seq<Chunk>) | Closing

  datatype Task = Task(stream: StreamId, pc: Pc)

  /** What became of a buffer taken from the queue. */
  datatype Outcome = Delivered(chunk: Chunk) | Lost(chunk: Chunk)

  /** The other side of a write half: what was written to it, and how often it was shut down. */
  datatype Sink = Sink(log: seq<Outcome>, shutdowns: nat)

  /**
   The whole system. `accepted` and `endRequested` are history: the buffers that `write` put into a
   queue, and the streams that `remove` found in the map.
   */
  datatype State = State(
    recs: map<StreamId, Rec>,
    tasks: map<TaskId, Task>,
    nextTask: TaskId,
    sinks: map<StreamId, Sink>,
    accepted: map<StreamId, seq<Chunk>>,
    endRequested: set<StreamId>)

  const INITIAL := State(map[], map[], 0, map[], map[], {})

  datatype Event =
    | Insert(id: StreamId)
    | Write(id: StreamId, chunk: Chunk)
    | Remove(id: StreamId)
    | Lock(task: TaskId)
    | WriteItem(task: TaskId, ok: bool)
    | Shutdown(task: TaskId)

  predicate Enabled(s: State, e: Event) {
    match e
    case Insert(id) => id !in s.sinks
    case Write(_, _) => true
    case Remove(_) => true
    case Lock(t) => t in s.tasks && s.tasks[t].pc.AtLock?
    case WriteItem(t, _) => t in s.tasks && s.tasks[t].pc.Writing? && s.tasks[t].pc.items != []
    case Shutdown(t) => t in s.tasks && s.tasks[t].pc.Closing?
  }

  // ----- Steps

  function Spawn(s: State, id: StreamId, pc: Pc): State {
    s.(tasks := s.tasks[s.nextTask := Task(id, pc)], nextTask := s.nextTask + 1)
  }

  function InsertStep(s: State, id: StreamId): State {
    s.(recs := s.recs[id := Rec(true, [], false)], sinks := s.sinks[id := Sink([], 0)],
       accepted := s.accepted[id := []])
  }

  /** Queues a buffer; whoever finds the write half in the record starts the loop with it. */
  function WriteStep(s: State, id: StreamId, chunk: Chunk): State {
    if id !in s.recs then s
    else
      var rec := s.recs[id];
      var t := s.(recs := s.recs[id := Rec(false, rec.q + [chunk], rec.ended)],
                  accepted := s.accepted[id := Accepted(s, id) + [chunk]]);
      if rec.write then Spawn(t, id, AtLock) else t
  }

  function Accepted(s: State, id: StreamId): seq<Chunk> {
    if id in s.accepted then s.accepted[id] else []
  }

  /** Ends a stream: at once if nobody writes to it, otherwise when the loop is through. */
  function RemoveStep(s: State, id: StreamId): State {
    if id !in s.recs then s
    else
      var t := s.(endRequested := s.endRequested + {id});
      if s.recs[id].write then Spawn(t.(recs := s.recs - {id}), id, Closing)
      else t.(recs := s.recs[id := s.recs[id].(ended := true)])
  }

  /** The critical section of the loop. */
  function LockStep(s: State, t: TaskId): State
    requires t in s.tasks
  {
    var id := s.tasks[t].stream;
    if id !in s.recs then s.(tasks := s.tasks[t := Task(id, Closing)])
    else
      var rec := s.recs[id];
      if rec.q == [] then
        if rec.ended then s.(recs := s.recs - {id}, tasks := s.tasks[t := Task(id, Closing)])
        else s.(recs := s.recs[id := rec.(write := true)], tasks := s.tasks - {t})
      else s.(recs := s.recs[id := rec.(q := [])], tasks := s.tasks[t := Task(id, Writing(rec.q))])
  }

  function AllLost(items: seq<Chunk>): (r: seq<Outcome>)
    ensures |r| == |items| && forall i | 0 <= i < |items| :: r[i] == Lost(items[i])
  {
    seq(|items|, i requires 0 <= i < |items| => Lost(items[i]))
  }

  function Batch(items: seq<Chunk>): Pc {
    if items == [] then AtLock else Writing(items)
  }

  /** Writes one buffer; a failure gives up the rest of the batch. */
  function WriteItemStep(s: State, t: TaskId, ok: bool): State
    requires t in s.tasks && s.tasks[t].pc.Writing? && s.tasks[t].pc.items != [] && s.tasks[t].stream in s.sinks
  {
    var id, items := s.tasks[t].stream, s.tasks[t].pc.items;
    var outcomes := if ok then [Delivered(items[0])] else AllLost(items);
    s.(sinks := s.sinks[id := s.sinks[id].(log := s.sinks[id].log + outcomes)],
       tasks := s.tasks[t := Task(id, if ok then Batch(items[1..]) else AtLock)])
  }

  function ShutdownStep(s: State, t: TaskId): State
    requires t in s.tasks && s.tasks[t].stream in s.sinks
  {
    var id := s.tasks[t].stream;
    s.(sinks := s.sinks[id := s.sinks[id].(shutdowns := s.sinks[id].shutdowns + 1)], tasks := s.tasks - {t})
  }

  /** Tasks write to streams that were inserted. */
  ghost predicate Wired(s: State) {
    forall t | t in s.tasks :: s.tasks[t].stream in s.sinks
  }

  function Step(s: State, e: Event): State
    requires Enabled(s, e) && Wired(s)
  {
    match e
    case Insert(id) => InsertStep(s, id)
    case Write(id, chunk) => WriteStep(s, id, chunk)
    case Remove(id) => RemoveStep(s, id)
    case Lock(t) => LockStep(s, t)
    case WriteItem(t, ok) => WriteItemStep(s, t, ok)
    case Shutdown(t) => ShutdownStep(s, t)
  }

  // ----- The invariant, stream by stream

  function Chunks(log: seq<Outcome>): (r: seq<Chunk>)
    ensures |r| == |log| && forall i | 0 <= i < |log| :: r[i] == log[i].chunk
  {
    seq(|log|, i requires 0 <= i < |log| => log[i].chunk)
  }

  function Held(pc: Pc): seq<Chunk> {
    if pc.Writing? then pc.items else []
  }

  /** The one task of a stream, if there is one. */
  ghost predicate NoTask(s: State, id: StreamId) {
    forall t | t in s.tasks :: s.tasks[t].stream != id
  }

  ghost predicate OnlyTask(s: State, id: StreamId, t: TaskId) {
    t in s.tasks && s.tasks[t].stream == id && forall u | u in s.tasks && s.tasks[u].stream == id :: u == t
  }

  /** The record holds the write half: nothing queued, not ended. */
  ghost predicate Idle(s: State, id: StreamId) {
    && id in s.recs && s.recs[id] == Rec(true, [], false) && NoTask(s, id)
    && id in s.sinks && s.sinks[id].shutdowns == 0 && id !in s.endRequested
    && Chunks(s.sinks[id].log) == Accepted(s, id)
  }

  /** A loop holds the write half: the record is there, and no data is out of place. */
  ghost predicate Running(s: State, id: StreamId, t: TaskId) {
    && OnlyTask(s, id, t) && !s.tasks[t].pc.Closing? && (s.tasks[t].pc.Writing? ==> s.tasks[t].pc.items != [])
    && id in s.recs && !s.recs[id].write && (s.recs[id].ended <==> id in s.endRequested)
    && id in s.sinks && s.sinks[id].shutdowns == 0
    && Chunks(s.sinks[id].log) + Held(s.tasks[t].pc) + s.recs[id].q == Accepted(s, id)
  }

  /** Somebody is about to shut the write half down: the record is gone, all data is through. */
  ghost predicate Ending(s: State, id: StreamId, t: TaskId) {
    && OnlyTask(s, id, t) && s.tasks[t].pc.Closing?
    && id !in s.recs && id in s.endRequested
    && id in s.sinks && s.sinks[id].shutdowns == 0 && Chunks(s.sinks[id].log) == Accepted(s, id)
  }

  ghost predicate Closed(s: State, id: StreamId) {
    && NoTask(s, id) && id !in s.recs && id in s.endRequested
    && id in s.sinks && s.sinks[id].shutdowns == 1 && Chunks(s.sinks[id].log) == Accepted(s, id)
  }

  ghost predicate StreamOk(s: State, id: StreamId) {
    Idle(s, id) || (exists t :: Running(s, id, t)) || (exists t :: Ending(s, id, t)) || Closed(s, id)
  }

  ghost predicate Inv(s: State) {
    && Wired(s) && s.accepted.Keys == s.sinks.Keys && s.recs.Keys <= s.sinks.Keys && s.endRequested <= s.sinks.Keys
    && (forall t | t in s.tasks :: t < s.nextTask)
    && (forall id {:trigger StreamOk(s, id)} | id in s.sinks :: StreamOk(s, id))
  }

  /** A step of another stream changes nothing about this one. */
  ghost predicate Untouched(s: State, t: State, id: StreamId) {
    && (id in s.recs <==> id in t.recs) && (id in s.recs ==> t.recs[id] == s.recs[id])
    && (id in s.sinks <==> id in t.sinks) && (id in s.sinks ==> t.sinks[id] == s.sinks[id])
    && Accepted(t, id) == Accepted(s, id) && (id in s.endRequested <==> id in t.endRequested)
    && (forall k | k in s.tasks && s.tasks[k].stream == id :: k in t.tasks && t.tasks[k] == s.tasks[k])
    && (forall k | k in t.tasks && t.tasks[k].stream == id :: k in s.tasks && t.tasks[k] == s.tasks[k])
  }

  lemma UntouchedStaysOk(s: State, t: State, id: StreamId)
    requires Untouched(s, t, id) && StreamOk(s, id)
    ensures StreamOk(t, id)
  {
    if Idle(s, id) {
      assert Idle(t, id);
    } else if k :| Running(s, id, k) {
      assert Running(t, id, k);
    } else if k :| Ending(s, id, k) {
      assert Ending(t, id, k);
    } else {
      assert Closed(t, id);
    }
  }

  /** The stream that an event is about. */
  function StreamOf(s: State, e: Event): StreamId
    requires Enabled(s, e)
  {
    match e
    case Insert(id) => id
    case Write(id, _) => id
    case Remove(id) => id
    case Lock(t) => s.tasks[t].stream
    case WriteItem(t, _) => s.tasks[t].stream
    case Shutdown(t) => s.tasks[t].stream
  }

  ghost predicate TasksBelow(s: State) {
    forall t | t in s.tasks :: t < s.nextTask
  }

  lemma SpawnTouchesOne(s: State, x: StreamId, pc: Pc, id: StreamId)
    requires TasksBelow(s) && id != x
    ensures Untouched(s, Spawn(s, x, pc), id)
  {
  }

  lemma UntouchedTransitive(s: State, t: State, u: State, id: StreamId)
    requires Untouched(s, t, id) && Untouched(t, u, id)
    ensures Untouched(s, u, id)
  {
    hide Accepted;
  }

  lemma WriteTouchesOne(s: State, x: StreamId, chunk: Chunk, id: StreamId)
    requires TasksBelow(s) && id != x
    ensures Untouched(s, WriteStep(s, x, chunk), id)
  {
    if x in s.recs {
      var rec := s.recs[x];
      var t := s.(recs := s.recs[x := Rec(false, rec.q + [chunk], rec.ended)],
                  accepted := s.accepted[x := Accepted(s, x) + [chunk]]);
      assert Untouched(s, t, id);
      SpawnTouchesOne(t, x, AtLock, id);
      hide Untouched, Spawn;
      if rec.write {
        UntouchedTransitive(s, t, Spawn(t, x, AtLock), id);
      }
    }
  }

  lemma RemoveTouchesOne(s: State, x: StreamId, id: StreamId)
    requires TasksBelow(s) && id != x
    ensures Untouched(s, RemoveStep(s, x), id)
  {
    if x in s.recs && s.recs[x].write {
      var t := s.(endRequested := s.endRequested + {x}, recs := s.recs - {x});
      assert Untouched(s, t, id);
      SpawnTouchesOne(t, x, Closing, id);
      hide Untouched, Spawn;
      UntouchedTransitive(s, t, Spawn(t, x, Closing), id);
    }
  }

  lemma LockTouchesOne(s: State, t: TaskId, id: StreamId)
    requires t in s.tasks && id != s.tasks[t].stream
    ensures Untouched(s, LockStep(s, t), id)
  {
  }

  lemma WritingTouchesOne(s: State, t: TaskId, ok: bool, id: StreamId)
    requires Enabled(s, WriteItem(t, ok)) && s.tasks[t].stream in s.sinks && id != s.tasks[t].stream
    ensures Untouched(s, WriteItemStep(s, t, ok), id)
  {
    hide Batch, AllLost;
  }

  lemma OthersUntouched(s: State, e: Event, id: StreamId)
    requires Inv(s) && Enabled(s, e) && id != StreamOf(s, e)
    ensures Untouched(s, Step(s, e), id)
  {
    assert TasksBelow(s) && Wired(s);
    hide Inv, Untouched;
    match e
    case Insert(x) => InsertTouchesOne(s, x, id);
    case Write(x, chunk) => WriteTouchesOne(s, x, chunk, id);
    case Remove(x) => RemoveTouchesOne(s, x, id);
    case Lock(t) => LockTouchesOne(s, t, id);
    case WriteItem(t, ok) => WritingTouchesOne(s, t, ok, id);
    case Shutdown(t) => ShutdownTouchesOne(s, t, id);
  }

  lemma InsertTouchesOne(s: State, x: StreamId, id: StreamId)
    requires id != x
    ensures Untouched(s, InsertStep(s, x), id)
  {
  }

  lemma ShutdownTouchesOne(s: State, t: TaskId, id: StreamId)
    requires t in s.tasks && s.tasks[t].stream in s.sinks && id != s.tasks[t].stream
    ensures Untouched(s, ShutdownStep(s, t), id)
  {
  }

  // ----- Each step keeps the invariant of its own stream

  lemma InsertKeeps(s: State, id: StreamId)
    requires Inv(s) && id !in s.sinks
    ensures Idle(InsertStep(s, id), id)
  {
  }

  lemma WriteKeeps(s: State, id: StreamId, chunk: Chunk)
    requires Inv(s) && id in s.recs
    ensures StreamOk(WriteStep(s, id, chunk), id)
  {
    var u := WriteStep(s, id, chunk);
    assert StreamOk(s, id);
    if Idle(s, id) {
      assert u.tasks[s.nextTask] == Task(id, AtLock);
      assert Running(u, id, s.nextTask);
    } else {
      var t :| Running(s, id, t);
      assert Running(u, id, t);
    }
  }

  lemma RemoveKeeps(s: State, id: StreamId)
    requires Inv(s) && id in s.recs
    ensures StreamOk(RemoveStep(s, id), id)
  {
    var u := RemoveStep(s, id);
    assert StreamOk(s, id);
    if Idle(s, id) {
      assert u.tasks[s.nextTask] == Task(id, Closing);
      assert Ending(u, id, s.nextTask);
    } else {
      var t :| Running(s, id, t);
      assert Running(u, id, t);
    }
  }

  /** A task that is not shutting down runs the loop, and the record of its stream is there. */
  lemma LoopFindsRecord(s: State, t: TaskId)
    requires Inv(s) && t in s.tasks && !s.tasks[t].pc.Closing?
    ensures Running(s, s.tasks[t].stream, t) && s.tasks[t].stream in s.recs
  {
    var id := s.tasks[t].stream;
    assert StreamOk(s, id);
    if u :| Running(s, id, u) {
      assert u == t;
    }
  }

  lemma LockKeeps(s: State, t: TaskId)
    requires Inv(s) && t in s.tasks && s.tasks[t].pc.AtLock?
    ensures StreamOk(LockStep(s, t), s.tasks[t].stream)
  {
    var id, u := s.tasks[t].stream, LockStep(s, t);
    LoopFindsRecord(s, t);
    if s.recs[id].q != [] {
      assert Running(u, id, t);
    } else if s.recs[id].ended {
      assert Ending(u, id, t);
    } else {
      assert Idle(u, id);
    }
  }

  lemma WriteItemKeeps(s: State, t: TaskId, ok: bool)
    requires Inv(s) && Enabled(s, WriteItem(t, ok))
    ensures StreamOk(WriteItemStep(s, t, ok), s.tasks[t].stream)
  {
    var id, u := s.tasks[t].stream, WriteItemStep(s, t, ok);
    var items := s.tasks[t].pc.items;
    LoopFindsRecord(s, t);
    var log := s.sinks[id].log;
    if ok {
      assert Chunks(log + [Delivered(items[0])]) == Chunks(log) + [items[0]];
      assert Chunks(log) + [items[0]] + items[1..] == Chunks(log) + items;
    } else {
      assert Chunks(log + AllLost(items)) == Chunks(log) + items;
    }
    assert Chunks(u.sinks[id].log) + Held(u.tasks[t].pc) == Chunks(log) + items;
    assert Running(u, id, t);
  }

  lemma ShutdownKeeps(s: State, t: TaskId)
    requires Inv(s) && t in s.tasks && s.tasks[t].pc.Closing?
    ensures Closed(ShutdownStep(s, t), s.tasks[t].stream)
  {
    var id := s.tasks[t].stream;
    assert StreamOk(s, id);
    if u :| Ending(s, id, u) {
      assert u == t;
    }
  }

  lemma OwnStreamOk(s: State, e: Event)
    requires Inv(s) && Enabled(s, e) && StreamOf(s, e) in Step(s, e).sinks
    ensures StreamOk(Step(s, e), StreamOf(s, e))
  {
    hide Idle, Running, Ending, Closed;
    match e
    case Insert(id) => InsertKeeps(s, id);
    case Write(id, chunk) => if id in s.recs { WriteKeeps(s, id, chunk); } else { assert StreamOk(s, id); }
    case Remove(id) => if id in s.recs { RemoveKeeps(s, id); } else { assert StreamOk(s, id); }
    case Lock(t) => LockKeeps(s, t);
    case WriteItem(t, ok) => WriteItemKeeps(s, t, ok);
    case Shutdown(t) => ShutdownKeeps(s, t);
  }

  /** Keys of the maps agree, tasks are for streams, and only `id` may be new. */
  ghost predicate ShapeOk(s: State, u: State, id: StreamId) {
    && Wired(u) && u.accepted.Keys == u.sinks.Keys && u.recs.Keys <= u.sinks.Keys
    && u.endRequested <= u.sinks.Keys && TasksBelow(u)
    && (forall x | x in u.sinks && x !in s.sinks :: x == id)
  }

  lemma TableKeepsShape(s: State, e: Event)
    requires Inv(s) && (e.Insert? || e.Write? || e.Remove?) && Enabled(s, e)
    ensures ShapeOk(s, Step(s, e), StreamOf(s, e))
  {
    hide StreamOk, Accepted;
  }

  lemma TaskKeepsShape(s: State, e: Event)
    requires Inv(s) && (e.Lock? || e.WriteItem? || e.Shutdown?) && Enabled(s, e)
    ensures ShapeOk(s, Step(s, e), StreamOf(s, e))
  {
    hide StreamOk, Batch, AllLost;
  }

  lemma StepKeepsShape(s: State, e: Event)
    requires Inv(s) && Enabled(s, e)
    ensures ShapeOk(s, Step(s, e), StreamOf(s, e))
  {
    hide Inv, Step, ShapeOk;
    match e
    case Insert(_) => TableKeepsShape(s, e);
    case Write(_, _) => TableKeepsShape(s, e);
    case Remove(_) => TableKeepsShape(s, e);
    case Lock(_) => TaskKeepsShape(s, e);
    case WriteItem(_, _) => TaskKeepsShape(s, e);
    case Shutdown(_) => TaskKeepsShape(s, e);
  }

  /** Every step of every task keeps the invariant of all streams. */
  lemma StepKeepsInv(s: State, e: Event)
    requires Inv(s) && Enabled(s, e)
    ensures Inv(Step(s, e))
  {
    hide StreamOk, Untouched;
    var u := Step(s, e);
    StepKeepsShape(s, e);
    forall id | id in u.sinks ensures StreamOk(u, id) {
      if id == StreamOf(s, e) {
        OwnStreamOk(s, e);
      } else {
        assert StreamOk(s, id);
        OthersUntouched(s, e, id);
        UntouchedStaysOk(s, u, id);
      }
    }
  }

  // ----- Whole runs

  /** A run: states from the initial one on, each the result of an enabled event. */
  ghost predicate IsRun(states: seq<State>, events: seq<Event>) {
    && |states| == |events| + 1 && states[0] == INITIAL
    && forall i | 0 <= i < |events| :: RunStep(states, events, i)
  }

  ghost predicate RunStep(states: seq<State>, events: seq<Event>, i: nat)
    requires i < |events| && |states| == |events| + 1
  {
    Wired(states[i]) && Enabled(states[i], events[i]) && states[i + 1] == Step(states[i], events[i])
  }

  lemma {:induction false} RunKeepsInv(states: seq<State>, events: seq<Event>, k: nat)
    requires IsRun(states, events) && k < |states|
    ensures Inv(states[k])
  {
    if k > 0 {
      RunKeepsInv(states, events, k - 1);
      assert RunStep(states, events, k - 1);
      StepKeepsInv(states[k - 1], events[k - 1]);
    }
  }

  // ----- Who owns a write half

  ghost function TasksOf(s: State, id: StreamId): set<TaskId> {
    set t | t in s.tasks && s.tasks[t].stream == id
  }

  /** Records, tasks and shutdowns that have or had the write half of a stream. */
  ghost function Owners(s: State, id: StreamId): nat {
    (if id in s.recs && s.recs[id].write then 1 else 0) + |TasksOf(s, id)|
    + (if id in s.sinks then s.sinks[id].shutdowns else 0)
  }

  lemma OnlyTaskIsOne(s: State, id: StreamId, t: TaskId)
    requires OnlyTask(s, id, t)
    ensures |TasksOf(s, id)| == 1
  {
    assert TasksOf(s, id) == {t};
  }

  lemma NoTaskIsNone(s: State, id: StreamId)
    requires NoTask(s, id)
    ensures |TasksOf(s, id)| == 0
  {
    assert TasksOf(s, id) == {};
  }

  /** At any time of any run, the write half of a stream has exactly one owner or was shut down once. */
  lemma ExactlyOneOwner(s: State, id: StreamId)
    requires Inv(s) && id in s.sinks
    ensures Owners(s, id) == 1
    ensures id in s.recs && s.recs[id].write ==> s.recs[id].q == [] && !s.recs[id].ended
    ensures s.sinks[id].shutdowns > 0 ==> id !in s.recs && Chunks(s.sinks[id].log) == s.accepted[id]
  {
    assert StreamOk(s, id);
    if Idle(s, id) || Closed(s, id) {
      NoTaskIsNone(s, id);
    } else if t :| Running(s, id, t) {
      OnlyTaskIsOne(s, id, t);
    } else {
      var t :| Ending(s, id, t);
      OnlyTaskIsOne(s, id, t);
    }
  }

  // ----- Data

  /** What the task of a stream holds, and what is queued. */
  ghost function InFlight(s: State, id: StreamId): seq<Chunk> {
    if t :| t in s.tasks && s.tasks[t].stream == id then Held(s.tasks[t].pc) else []
  }

  function Queued(s: State, id: StreamId): seq<Chunk> {
    if id in s.recs then s.recs[id].q else []
  }

  /** What was taken, what is held and what is queued make up, in order, all that was accepted. */
  lemma NothingReordered(s: State, id: StreamId)
    requires Inv(s) && id in s.sinks
    ensures Chunks(s.sinks[id].log) + InFlight(s, id) + Queued(s, id) == s.accepted[id]
  {
    assert StreamOk(s, id);
    var log := Chunks(s.sinks[id].log);
    if t :| Running(s, id, t) {
      assert InFlight(s, id) == Held(s.tasks[t].pc);
    } else {
      assert InFlight(s, id) == [];
      assert Queued(s, id) == [];
      assert log + [] + [] == log;
    }
  }

  ghost predicate NoFailure(e: Event) {
    e.WriteItem? ==> e.ok
  }

  ghost predicate AllDelivered(log: seq<Outcome>) {
    forall i | 0 <= i < |log| :: log[i].Delivered?
  }

  lemma StepDelivers(s: State, e: Event, id: StreamId)
    requires Wired(s) && Enabled(s, e) && NoFailure(e) && id in Step(s, e).sinks
    requires id in s.sinks ==> AllDelivered(s.sinks[id].log)
    ensures AllDelivered(Step(s, e).sinks[id].log)
  {
  }

  lemma {:induction false} RunDelivers(states: seq<State>, events: seq<Event>, k: nat, id: StreamId)
    requires IsRun(states, events) && k < |states| && id in states[k].sinks
    requires forall i | 0 <= i < k :: NoFailure(events[i])
    ensures AllDelivered(states[k].sinks[id].log)
    decreases k
  {
    if k > 0 {
      assert RunStep(states, events, k - 1);
      if id in states[k - 1].sinks {
        RunDelivers(states, events, k - 1, id);
      }
      StepDelivers(states[k - 1], events[k - 1], id);
    }
  }

  /** The bytes on the other side of a stream. */
  function Received(log: seq<Outcome>): seq<int> {
    if log == [] then []
    else Received(log[..|log| - 1]) + if log[|log| - 1].Delivered? then log[|log| - 1].chunk else []
  }

  function Flatten(chunks: seq<Chunk>): seq<int> {
    if chunks == [] then [] else Flatten(chunks[..|chunks| - 1]) + chunks[|chunks| - 1]
  }

  lemma {:induction false} DeliveredBytes(log: seq<Outcome>)
    requires AllDelivered(log)
    ensures Received(log) == Flatten(Chunks(log))
    decreases |log|
  {
    if log != [] {
      DeliveredBytes(log[..|log| - 1]);
      assert Chunks(log)[..|log| - 1] == Chunks(log[..|log| - 1]);
    }
  }

  lemma {:induction false} FlattenConcat(a: seq<Chunk>, b: seq<Chunk>)
    ensures Flatten(a + b) == Flatten(a) + Flatten(b)
    decreases |b|
  {
    if b == [] {
      assert a + b == a;
    } else {
      var front, last := b[..|b| - 1], b[|b| - 1];
      FlattenConcat(a, front);
      assert (a + b)[..|a + b| - 1] == a + front;
      assert Flatten(b) == Flatten(front) + last;
      assert (Flatten(a) + Flatten(front)) + last == Flatten(a) + (Flatten(front) + last);
    }
  }

  /** If nothing was lost: bytes received, in hand and queued are all bytes accepted, in order. */
  ghost predicate InOrder(s: State, id: StreamId)
    requires id in s.sinks && id in s.accepted
  {
    && Received(s.sinks[id].log) + Flatten(InFlight(s, id)) + Flatten(Queued(s, id)) == Flatten(s.accepted[id])
    && (s.sinks[id].shutdowns > 0 ==> Received(s.sinks[id].log) == Flatten(s.accepted[id]))
  }

  lemma DeliveredInOrder(s: State, id: StreamId)
    requires Inv(s) && id in s.sinks && AllDelivered(s.sinks[id].log)
    ensures InOrder(s, id)
  {
    DeliveredBytes(s.sinks[id].log);
    NothingReordered(s, id);
    ExactlyOneOwner(s, id);
    FlattenConcat(Chunks(s.sinks[id].log) + InFlight(s, id), Queued(s, id));
    FlattenConcat(Chunks(s.sinks[id].log), InFlight(s, id));
  }

  /**
   In every run without failed writes, at every moment and for every stream: the bytes received, then
   those in the hands of the loop, then those queued are the bytes of all accepted buffers in order;
   and once the stream is shut down the receiver has all of them.
   */
  lemma FifoDelivery(states: seq<State>, events: seq<Event>, k: nat, id: StreamId)
    requires IsRun(states, events) && k < |states| && id in states[k].sinks
    requires forall i | 0 <= i < k :: NoFailure(events[i])
    ensures id in states[k].accepted && InOrder(states[k], id)
  {
    RunKeepsInv(states, events, k);
    RunDelivers(states, events, k, id);
    DeliveredInOrder(states[k], id);
  }

  // ----- The protocol refines a channel with close

  /** Open; end requested but data under way; no more data can be accepted; shut down. */
  datatype Phase = Open | Draining | Sealed | Shut

  /** A first-in-first-out channel: what it accepted, and for each buffer taken out whether it was delivered. */
  datatype Channel = Channel(accepted: seq<Chunk>, taken: seq<bool>, phase: Phase)

  ghost predicate CanAccept(c: Channel) {
    c.phase.Open? || c.phase.Draining?
  }

  /** What an event is to a channel. */
  datatype Action =
    | Put(chunk: Chunk)
    | Take(delivered: seq<bool>)
    | RequestEnd
    | Poll
    | Close
    | Elsewhere

  /**
   What each action does to a channel. A put is accepted unless the channel is sealed, and then
   ignored; a request to end seals an empty channel or lets it drain; a poll may find that a draining
   channel is empty.
   */
  ghost predicate ChannelStep(c: Channel, a: Action, d: Channel) {
    match a
    case Put(chunk) => d == if CanAccept(c) then c.(accepted := c.accepted + [chunk]) else c
    case Take(q) => CanAccept(c) && q != [] && |c.taken + q| <= |c.accepted| && d == c.(taken := c.taken + q)
    case RequestEnd =>
      if c.phase.Open? then d == c.(phase := Draining) || (|c.taken| == |c.accepted| && d == c.(phase := Sealed))
      else d == c
    case Poll =>
      CanAccept(c) && (d == c || (c.phase.Draining? && |c.taken| == |c.accepted| && d == c.(phase := Sealed)))
    case Close => c.phase.Sealed? && d == c.(phase := Shut)
    case Elsewhere => d == c
  }

  /** A write takes one buffer out and delivers it, a failed one takes the rest of its batch and delivers nothing. */
  function ActionOf(s: State, e: Event, id: StreamId): Action
    requires Enabled(s, e)
  {
    if StreamOf(s, e) != id then Elsewhere
    else
      match e
      case Insert(_) => Elsewhere
      case Write(_, chunk) => Put(chunk)
      case Remove(_) => RequestEnd
      case Lock(_) => Poll
      case WriteItem(t, ok) => Take(if ok then [true] else seq(|s.tasks[t].pc.items|, _ => false))
      case Shutdown(_) => Close
  }

  function Results(log: seq<Outcome>): (r: seq<bool>)
    ensures |r| == |log| && forall i | 0 <= i < |log| :: r[i] == log[i].Delivered?
  {
    seq(|log|, i requires 0 <= i < |log| => log[i].Delivered?)
  }

  ghost function AsChannel(s: State, id: StreamId): Channel
    requires id in s.sinks
  {
    Channel(Accepted(s, id), Results(s.sinks[id].log),
            if id in s.recs then (if id in s.endRequested then Draining else Open)
            else if s.sinks[id].shutdowns == 0 then Sealed else Shut)
  }

  lemma WritingResults(s: State, t: TaskId, ok: bool)
    requires Inv(s) && Enabled(s, WriteItem(t, ok))
    ensures var id, items := s.tasks[t].stream, s.tasks[t].pc.items;
      Results(WriteItemStep(s, t, ok).sinks[id].log)
      == Results(s.sinks[id].log) + if ok then [true] else seq(|items|, _ => false)
  {
    var id := s.tasks[t].stream;
    var log, more := s.sinks[id].log, WriteItemStep(s, t, ok).sinks[id].log;
    assert more[..|log|] == log;
  }

  lemma OwnStepRefines(s: State, e: Event)
    requires Inv(s) && Enabled(s, e) && StreamOf(s, e) in s.sinks
    ensures var id := StreamOf(s, e); ChannelStep(AsChannel(s, id), ActionOf(s, e, id), AsChannel(Step(s, e), id))
  {
    var id := StreamOf(s, e);
    assert StreamOk(s, id);
    match e
    case Insert(_) =>
    case Write(_, _) =>
    case Remove(_) =>
    case Lock(t) => LoopFindsRecord(s, t);
    case WriteItem(t, ok) =>
      LoopFindsRecord(s, t);
      WritingResults(s, t, ok);
    case Shutdown(t) => ShutdownKeeps(s, t);
  }

  /** Every step of the system is to every channel the action that belongs to the event. */
  lemma StepRefinesChannel(s: State, e: Event, id: StreamId)
    requires Inv(s) && Enabled(s, e) && id in s.sinks
    ensures id in Step(s, e).sinks
    ensures ChannelStep(AsChannel(s, id), ActionOf(s, e, id), AsChannel(Step(s, e), id))
  {
    if id == StreamOf(s, e) {
      OwnStepRefines(s, e);
    } else {
      OthersUntouched(s, e, id);
    }
  }
}
