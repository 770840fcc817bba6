/** The dispatcher and the map of streams that it shares with the tasks it starts, updated in place. */
module StreamConnections {
  import D = Dispatch
  import S = Streams
  import opened StreamFrames
  import opened Dispatchers
  import opened StreamTables

  class StreamConnection {
    const dispatcher: Dispatcher
    const streams: StreamTable
    var payloads: seq<Payload>
    ghost var removed: set<nat>

    ghost function View(): Link
      reads this, dispatcher, streams
    {
      Link(dispatcher.View(), streams.View(), payloads, removed)
    }

    ghost predicate Valid()
      reads this, dispatcher, streams
    {
      HasStreamMethods(dispatcher.methods) && StreamFrames.Inv(View()) && EndsOk(View())
    }

    /** The methods of a dispatcher and the two for streams; data must not have a method of its own yet. */
    constructor (methods: map<string, D.Method>)
      requires STREAM_DATA !in methods
      ensures Valid() && View() == START && fresh(dispatcher) && fresh(streams)
      ensures dispatcher.methods == methods[STREAM_ENDED := D.Async][STREAM_DATA := D.Sync]
    {
      dispatcher := new Dispatcher(methods[STREAM_ENDED := D.Async][STREAM_DATA := D.Sync]);
      streams := new StreamTable();
      payloads := [];
      removed := {};
      new;
      StartsWell();
    }

    /** Dispatches a frame; data goes to its stream at once. */
    method HandleFrame(msg: D.Incoming, paramsOk: bool, callbackOk: bool, ids: nat -> StreamId, payload: Payload)
      requires Valid() && StreamFrames.Enabled(View(), Frame(msg, paramsOk, callbackOk, ids, payload))
      modifies this, dispatcher, streams
      ensures Valid()
      ensures View()
           == StreamFrames.Step(dispatcher.methods, old(View()), Frame(msg, paramsOk, callbackOk, ids, payload))
    {
      ghost var c := View();
      Parts(c);
      StreamFrames.StepKeepsInv(dispatcher.methods, c, Frame(msg, paramsOk, callbackOk, ids, payload));
      StepKeepsEnds(dispatcher.methods, c, Frame(msg, paramsOk, callbackOk, ids, payload));
      hide StreamFrames.Inv, EndsOk, D.Inv, S.Inv, D.Enabled, HasStreamMethods;
      dispatcher.DispatchFrame(msg, paramsOk, callbackOk, ids);
      if payload.Data? {
        streams.Write(payload.stream, payload.segment);
      }
      payloads := payloads + [payload];
    }

    /** Puts the next stream of the call being started into the map. */
    method RegisterNext()
      requires Valid() && StreamFrames.Enabled(View(), Register)
      modifies this, dispatcher, streams
      ensures Valid() && View() == StreamFrames.Step(dispatcher.methods, old(View()), Register)
    {
      ghost var c := View();
      Parts(c);
      NextStreamIsNew(dispatcher.methods, c.d);
      StreamFrames.StepKeepsInv(dispatcher.methods, c, Register);
      StepKeepsEnds(dispatcher.methods, c, Register);
      hide StreamFrames.Inv, EndsOk, D.Inv, S.Inv, HasStreamMethods;
      streams.Insert(dispatcher.streamsOf[dispatcher.starting.value.request][dispatcher.starting.value.inserted]);
      dispatcher.RegisterNext();
    }

    /** The future of a request to end takes the lock. */
    method CarryOutEnd(n: nat)
      requires Valid() && StreamFrames.Enabled(View(), CarryOut(n))
      modifies this, streams
      ensures Valid() && View() == StreamFrames.Step(dispatcher.methods, old(View()), CarryOut(n))
    {
      ghost var c := View();
      Parts(c);
      StreamFrames.StepKeepsInv(dispatcher.methods, c, CarryOut(n));
      StepKeepsEnds(dispatcher.methods, c, CarryOut(n));
      hide StreamFrames.Inv, EndsOk, D.Inv, S.Inv, HasStreamMethods;
      streams.Remove(payloads[n].stream);
      removed := removed + {n};
    }

    lemma Parts(c: Link)
      requires StreamFrames.Inv(c)
      ensures D.Inv(c.d) && S.Inv(c.s) && S.Wired(c.s) && c.s.sinks.Keys == c.d.readers.Keys
    {
    }
  }
}
