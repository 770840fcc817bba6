/** The dispatcher of a connection as it is updated in place, up to the next point where others may run. */
module Dispatchers {
  import opened Common
  import opened Dispatch

  class Dispatcher {
    const methods: map<string, Method>
    var received: seq<Incoming>
    var out: seq<Msg>
    var futures: map<nat, Future>
    var starting: Option<Starting>
    var streamsOf: map<nat, seq<StreamId>>
    var readers: map<StreamId, bool>
    var nextStream: StreamId
    var calls: set<nat>
    var panicked: bool

    ghost function View(): State
      reads this
    {
      State(received, out, futures, starting, streamsOf, readers, nextStream, calls, panicked)
    }

    constructor (methods: map<string, Method>)
      ensures this.methods == methods && View() == INITIAL && Inv(View())
    {
      this.methods := methods;
      received := [];
      out := [];
      futures := map[];
      starting := None;
      streamsOf := map[];
      readers := map[];
      nextStream := 0;
      calls := {};
      panicked := false;
      InitialState();
    }

    method Answer(n: nat, status: Status)
      requires n < |received|
      modifies this`out
      ensures View() == Respond(old(View()), n, status)
    {
      if received[n].id.Some? {
        out := out + [Response(n, received[n].id.value, status)];
      }
    }

    /** Takes ids for the streams of a call and announces them. */
    method AnnounceStreams(n: nat, streams: nat, ids: nat -> StreamId)
      requires n < |received|
      modifies this`out, this`starting, this`streamsOf, this`nextStream
      ensures View() == Send(old(View()), StartOf(n, received[n], NewStreams(ids, streams))).(
                          starting := Some(Starting(n, 0)), streamsOf := old(streamsOf)[n := NewStreams(ids, streams)],
                          nextStream := if streams == 0 then old(nextStream) else ids(streams - 1) + 1)
    {
      var taken: seq<StreamId> := [];
      for i := 0 to streams
        invariant taken == NewStreams(ids, i)
        invariant nextStream == if i == 0 then old(nextStream) else ids(i - 1) + 1
        modifies this`nextStream
      {
        taken := taken + [ids(i)];
        nextStream := ids(i) + 1;
      }
      var forId := if received[n].id.Some? then received[n].id.value else 0;
      out := out + [StreamsStarted(n, forId, taken)];
      starting := Some(Starting(n, 0));
      streamsOf := streamsOf[n := taken];
    }

    /** Dispatches one frame; `paramsOk` and `callbackOk` tell what deserializer and callback say. */
    method DispatchFrame(msg: Incoming, paramsOk: bool, callbackOk: bool, ids: nat -> StreamId)
      requires Inv(View()) && Enabled(View(), Dispatched(msg, paramsOk, callbackOk, ids))
      modifies this
      ensures View() == Step(methods, old(View()), Dispatched(msg, paramsOk, callbackOk, ids)) && Inv(View())
    {
      hide Inv, Fresh;
      StepKeepsInv(methods, View(), Dispatched(msg, paramsOk, callbackOk, ids));
      var n := |received|;
      received := received + [msg];
      if msg.methodName.None? {
        if msg.id.None? {
          panicked := true;
        } else {
          calls := calls - {msg.id.value};
        }
      } else if msg.methodName.value !in methods {
        Answer(n, NotFound);
      } else {
        match methods[msg.methodName.value] {
          case Sync =>
            Answer(n, if !paramsOk then InvalidParams else if callbackOk then Success else Failed);
          case Async =>
            futures := futures[n := if paramsOk then Running else Ready(InvalidParams)];
          case Duplex(streams) =>
            if paramsOk {
              AnnounceStreams(n, streams, ids);
            } else {
              futures := futures[n := Ready(InvalidParams)];
            }
        }
      }
    }

    /** One round of the loop that puts the streams of a call into the map and starts their readers. */
    method RegisterNext()
      requires Inv(View()) && Enabled(View(), InsertStream)
      modifies this`readers, this`starting
      ensures View() == Step(methods, old(View()), InsertStream) && Inv(View())
    {
      hide Inv;
      StepKeepsInv(methods, View(), InsertStream);
      var n, i := starting.value.request, starting.value.inserted;
      readers := readers[streamsOf[n][i] := true];
      starting := Some(Starting(n, i + 1));
    }

    /** All streams of a call are registered: its future starts and the next frame may come. */
    method SpawnFuture()
      requires Inv(View()) && Enabled(View(), StartFuture)
      modifies this`futures, this`starting
      ensures View() == Step(methods, old(View()), StartFuture) && Inv(View())
    {
      hide Inv;
      StepKeepsInv(methods, View(), StartFuture);
      futures := futures[starting.value.request := Running];
      starting := None;
    }

    method FinishFuture(n: nat, callbackOk: bool)
      requires Inv(View()) && Enabled(View(), FutureDone(n, callbackOk))
      modifies this`futures, this`out
      ensures View() == Step(methods, old(View()), FutureDone(n, callbackOk)) && Inv(View())
    {
      hide Inv;
      StepKeepsInv(methods, View(), FutureDone(n, callbackOk));
      Answer(n, match futures[n] { case Ready(status) => status case Running => ResultOf(callbackOk) });
      futures := futures - {n};
    }

    /** The reader of a stream got `segment`, or nothing more when that is empty. */
    method OnStreamRead(x: StreamId, segment: seq<int>)
      requires Inv(View()) && !panicked && x in readers && readers[x]
      modifies this`out, this`readers
      ensures Inv(View())
      ensures View() == Step(methods, old(View()), if segment == [] then ReadEnd(x) else Read(x, segment))
    {
      hide Inv;
      if segment == [] {
        StepKeepsInv(methods, View(), ReadEnd(x));
        out := out + [StreamEnded(x)];
        readers := readers[x := false];
      } else {
        StepKeepsInv(methods, View(), Read(x, segment));
        out := out + [StreamData(x, segment)];
      }
    }
  }
}
