/** The shared map of streams as it is updated in place, one critical section or write at a time. */
module StreamTables {
  import opened Streams

  class StreamTable {
    var recs: map<StreamId, Rec>
    var tasks: map<TaskId, Task>
    var nextTask: TaskId
    var sinks: map<StreamId, Sink>
    ghost var accepted: map<StreamId, seq<Chunk>>
    ghost var endRequested: set<StreamId>

    ghost function View(): State
      reads this
    {
      State(recs, tasks, nextTask, sinks, accepted, endRequested)
    }

    constructor ()
      ensures View() == INITIAL && Inv(View())
    {
      recs := map[];
      tasks := map[];
      nextTask := 0;
      sinks := map[];
      accepted := map[];
      endRequested := {};
    }

    method Spawn(id: StreamId, pc: Pc)
      modifies this`tasks, this`nextTask
      ensures View() == Streams.Spawn(old(View()), id, pc)
    {
      tasks := tasks[nextTask := Task(id, pc)];
      nextTask := nextTask + 1;
    }

    /** Registers the write half of a new stream. */
    method Insert(id: StreamId)
      requires Inv(View()) && id !in sinks
      modifies this
      ensures View() == InsertStep(old(View()), id) && Inv(View())
    {
      StepKeepsInv(View(), Streams.Insert(id));
      recs := recs[id := Rec(true, [], false)];
      sinks := sinks[id := Sink([], 0)];
      accepted := accepted[id := []];
    }

    method Write(id: StreamId, chunk: Chunk)
      requires Inv(View())
      modifies this
      ensures View() == WriteStep(old(View()), id, chunk) && Inv(View())
    {
      StepKeepsInv(View(), Streams.Write(id, chunk));
      if id in recs {
        var rec := recs[id];
        accepted := accepted[id := Accepted(View(), id) + [chunk]];
        recs := recs[id := Rec(false, rec.q + [chunk], rec.ended)];
        if rec.write {
          Spawn(id, AtLock);
        }
      }
    }

    method Remove(id: StreamId)
      requires Inv(View())
      modifies this
      ensures View() == RemoveStep(old(View()), id) && Inv(View())
    {
      StepKeepsInv(View(), Streams.Remove(id));
      if id in recs {
        endRequested := endRequested + {id};
        if recs[id].write {
          recs := recs - {id};
          Spawn(id, Closing);
        } else {
          recs := recs[id := recs[id].(ended := true)];
        }
      }
    }

    /** What the loop does while it holds the lock; the first branch is there, but no run takes it. */
    method LoopSection(t: TaskId)
      requires t in tasks && tasks[t].pc.AtLock?
      modifies this
      ensures View() == LockStep(old(View()), t)
      ensures old(Inv(View())) ==> Inv(View())
    {
      if Inv(View()) {
        StepKeepsInv(View(), Lock(t));
      }
      var id := tasks[t].stream;
      if id !in recs {
        tasks := tasks[t := Task(id, Closing)];
        return;
      }
      if recs[id].q == [] {
        if recs[id].ended {
          recs := recs - {id};
          tasks := tasks[t := Task(id, Closing)];
        } else {
          recs := recs[id := recs[id].(write := true)];
          tasks := tasks - {t};
        }
        return;
      }
      var items := recs[id].q;
      recs := recs[id := recs[id].(q := [])];
      tasks := tasks[t := Task(id, Writing(items))];
    }

    /** Writes the next buffer of a batch; `ok` tells whether that succeeds. */
    method WriteNext(t: TaskId, ok: bool)
      requires Inv(View()) && Enabled(View(), WriteItem(t, ok))
      modifies this
      ensures View() == WriteItemStep(old(View()), t, ok) && Inv(View())
    {
      StepKeepsInv(View(), WriteItem(t, ok));
      var id, items := tasks[t].stream, tasks[t].pc.items;
      var sink := sinks[id];
      if ok {
        sinks := sinks[id := sink.(log := sink.log + [Delivered(items[0])])];
        tasks := tasks[t := Task(id, Batch(items[1..]))];
      } else {
        sinks := sinks[id := sink.(log := sink.log + AllLost(items))];
        tasks := tasks[t := Task(id, AtLock)];
      }
    }

    /** Shuts the write half down, outside of the lock. */
    method ShutDown(t: TaskId)
      requires Inv(View()) && t in tasks && tasks[t].pc.Closing?
      modifies this
      ensures View() == ShutdownStep(old(View()), t) && Inv(View())
    {
      StepKeepsInv(View(), Shutdown(t));
      var id := tasks[t].stream;
      sinks := sinks[id := sinks[id].(shutdowns := sinks[id].shutdowns + 1)];
      tasks := tasks - {t};
    }
  }
}
