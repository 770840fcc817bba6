/**
 Requests, responses and stream messages of one RPC connection. The read loop dispatches frames one
 after the other; futures and stream readers run beside it and send whenever they like.
 */
module Dispatch {
  import opened Common

  type StreamId = nat

  /** How a method was registered; a duplex method says how many streams it needs. */
  datatype Method = Sync | Async | Duplex(streams: nat)

  /** The part of an incoming message that decides where it goes. */
  datatype Incoming = Incoming(id: Option<nat>, methodName: Option<string>, isError: bool)

  datatype Status = Success | InvalidParams | Failed | NotFound

  /** An outgoing message; `request` is the number of the frame it belongs to. */
  datatype Msg =
    | Response(request: nat, id: nat, status: Status)
    | StreamsStarted(request: nat, forId: nat, streams: seq<StreamId>)
    | StreamData(stream: StreamId, segment: seq<int>)
    | StreamEnded(stream: StreamId)

  /** A spawned future: its answer is fixed already, or comes from the callback. */
  datatype Future = Ready(status: Status) | Running

  /** The registration of the streams of a duplex call: `inserted` of them are in the map. */
  datatype Starting = Starting(request: nat, inserted: nat)

  datatype State = State(
    received: seq<Incoming>,
    out: seq<Msg>,
    futures: map<nat, Future>,
    starting: Option<Starting>,
    streamsOf: map<nat, seq<StreamId>>,
    readers: map<StreamId, bool>,   // registered streams, and whether their reader still runs
    nextStream: StreamId,
    calls: set<nat>,
    panicked: bool)

  const INITIAL := State([], [], map[], None, map[], map[], 0, {}, false)

  /**
   What can happen next. `ids(i)` is the value that the shared counter of message ids hands out to
   the dispatching task when asked for the (i+1)-th time; calls made elsewhere may take values in
   between.
   */
  datatype Event =
    | Dispatched(msg: Incoming, paramsOk: bool, callbackOk: bool, ids: nat -> StreamId)
    | InsertStream
    | StartFuture
    | FutureDone(request: nat, callbackOk: bool)
    | Read(stream: StreamId, segment: seq<int>)
    | ReadEnd(stream: StreamId)
    | Call(id: nat)

  /** The counter only goes up. */
  ghost predicate Fresh(ids: nat -> StreamId, next: StreamId) {
    (forall i :: ids(i) >= next) && (forall i, j | i < j :: ids(i) < ids(j))
  }

  ghost predicate Enabled(s: State, e: Event) {
    && !s.panicked
    && match e
       case Dispatched(_, _, _, ids) => s.starting.None? && Fresh(ids, s.nextStream)
       case InsertStream =>
         s.starting.Some? && s.starting.value.request in s.streamsOf
         && s.starting.value.inserted < |s.streamsOf[s.starting.value.request]|
       case StartFuture =>
         s.starting.Some? && s.starting.value.request in s.streamsOf
         && s.starting.value.inserted == |s.streamsOf[s.starting.value.request]|
       case FutureDone(n, _) => n in s.futures && n < |s.received|
       case Read(x, _) => x in s.readers && s.readers[x]
       case ReadEnd(x) => x in s.readers && s.readers[x]
       case Call(id) => id >= s.nextStream
  }

  // ----- Steps

  function Send(s: State, m: Msg): State {
    s.(out := s.out + [m])
  }

  /** Answers a request, if it asks for an answer. */
  function Respond(s: State, n: nat, status: Status): State
    requires n < |s.received|
  {
    if s.received[n].id.None? then s else Send(s, Response(n, s.received[n].id.value, status))
  }

  function ResultOf(ok: bool): Status {
    if ok then Success else Failed
  }

  function NewStreams(ids: nat -> StreamId, n: nat): (r: seq<StreamId>)
    ensures |r| == n && forall i | 0 <= i < n :: r[i] == ids(i)
  {
    seq(n, i requires i >= 0 => ids(i))
  }

  /** The announcement of the streams of a call; a call without an id is announced as 0. */
  function StartOf(n: nat, msg: Incoming, ids: seq<StreamId>): Msg {
    StreamsStarted(n, if msg.id.Some? then msg.id.value else 0, ids)
  }

  /** What dispatching a message comes to. */
  datatype Reaction =
    | Panic                   // a reply that does not say to what
    | Resolve(id: nat)        // a reply to one of our calls
    | Answer(status: Status)  // done at once
    | Spawn(future: Future)   // done in a task of its own
    | Start(streams: nat)     // streams first, then a task of its own

  function React(methods: map<string, Method>, msg: Incoming, paramsOk: bool, callbackOk: bool): (r: Reaction)
    ensures r.Panic? || r.Resolve? <==> msg.methodName.None?
  {
    if msg.methodName.None? then (if msg.id.None? then Panic else Resolve(msg.id.value))
    else if msg.methodName.value !in methods then Answer(NotFound)
    else
      match methods[msg.methodName.value]
      case Sync => Answer(if paramsOk then ResultOf(callbackOk) else InvalidParams)
      case Async => Spawn(if paramsOk then Running else Ready(InvalidParams))
      case Duplex(k) => if paramsOk then Start(k) else Spawn(Ready(InvalidParams))
  }

  function Apply(s: State, msg: Incoming, r: Reaction, ids: nat -> StreamId): State {
    var n := |s.received|;
    var t := s.(received := s.received + [msg]);
    match r
    case Panic => t.(panicked := true)
    case Resolve(id) => t.(calls := s.calls - {id})
    case Answer(status) => Respond(t, n, status)
    case Spawn(f) => t.(futures := s.futures[n := f])
    case Start(k) =>
      var streams := NewStreams(ids, k);
      Send(t, StartOf(n, msg, streams)).(
        starting := Some(Starting(n, 0)), streamsOf := s.streamsOf[n := streams],
        nextStream := if k == 0 then s.nextStream else ids(k - 1) + 1)
  }

  function InsertStreamStep(s: State): State
    requires Enabled(s, InsertStream)
  {
    var st := s.starting.value;
    s.(readers := s.readers[s.streamsOf[st.request][st.inserted] := true],
       starting := Some(st.(inserted := st.inserted + 1)))
  }

  function Step(methods: map<string, Method>, s: State, e: Event): State
    requires Enabled(s, e)
  {
    match e
    case Dispatched(msg, paramsOk, callbackOk, ids) => Apply(s, msg, React(methods, msg, paramsOk, callbackOk), ids)
    case InsertStream => InsertStreamStep(s)
    case StartFuture => s.(futures := s.futures[s.starting.value.request := Running], starting := None)
    case FutureDone(n, ok) =>
      Respond(s, n, if s.futures[n].Ready? then s.futures[n].status else ResultOf(ok)).(futures := s.futures - {n})
    case Read(x, segment) => Send(s, StreamData(x, segment))
    case ReadEnd(x) => Send(s, StreamEnded(x)).(readers := s.readers[x := false])
    case Call(id) => s.(calls := s.calls + {id}, nextStream := id + 1)
  }

  // ----- Invariant: answers

  function Answers(out: seq<Msg>, n: nat): nat {
    if out == [] then 0
    else Answers(out[..|out| - 1], n)
         + if out[|out| - 1].Response? && out[|out| - 1].request == n then 1 else 0
  }

  lemma AnswersAfter(out: seq<Msg>, m: Msg, n: nat)
    ensures Answers(out + [m], n) == Answers(out, n) + if m.Response? && m.request == n then 1 else 0
  {
    assert (out + [m])[..|out|] == out;
  }

  /** A request waits for its future, or for the streams that come before it. */
  ghost predicate Outstanding(s: State, n: nat) {
    n in s.futures || (s.starting.Some? && s.starting.value.request == n)
  }

  ghost predicate WantsAnswer(msg: Incoming) {
    msg.methodName.Some? && msg.id.Some?
  }

  /** One answer now or later for a request with an id, none for anything else. */
  ghost predicate AnsweredOnce(s: State, n: nat)
    requires n < |s.received|
  {
    Answers(s.out, n) + (if Outstanding(s, n) && s.received[n].id.Some? then 1 else 0)
      == if WantsAnswer(s.received[n]) then 1 else 0
  }

  ghost predicate AnswersOk(s: State) {
    && (forall n {:trigger AnsweredOnce(s, n)} | 0 <= n < |s.received| :: AnsweredOnce(s, n))
    && (forall n | n in s.futures :: n < |s.received| && s.received[n].methodName.Some?)
    && (s.starting.Some? ==> s.starting.value.request < |s.received| && s.starting.value.request !in s.futures
                             && s.received[s.starting.value.request].methodName.Some?)
    && (forall n | n >= |s.received| :: Answers(s.out, n) == 0)
  }

  // ----- Invariant: order of messages

  /** Every message has what must come before it. */
  ghost predicate Justified(s: State, i: nat)
    requires i < |s.out|
  {
    match s.out[i]
    case Response(n, id, _) =>
      && n < |s.received| && s.received[n].id == Some(id)
      && (n in s.streamsOf ==> StartOf(n, s.received[n], s.streamsOf[n]) in s.out[..i])
    case StreamsStarted(n, _, ids) =>
      && n in s.streamsOf && n < |s.received| && s.out[i] == StartOf(n, s.received[n], s.streamsOf[n])
      && s.out[i] !in s.out[..i]
    case StreamData(x, _) => Announced(s, s.out[..i], x) && StreamEnded(x) !in s.out[..i]
    case StreamEnded(x) => Announced(s, s.out[..i], x) && StreamEnded(x) !in s.out[..i]
  }

  /** The stream belongs to a call whose start has been sent. */
  ghost predicate Announced(s: State, sent: seq<Msg>, x: StreamId) {
    exists n :: n in s.streamsOf && n < |s.received| && x in s.streamsOf[n]
                && StartOf(n, s.received[n], s.streamsOf[n]) in sent
  }

  ghost predicate OrderOk(s: State) {
    forall i {:trigger Justified(s, i)} | 0 <= i < |s.out| :: Justified(s, i)
  }

  // ----- Invariant: streams

  /** The streams of a call were announced and are in the map, but for those still to be inserted. */
  ghost predicate CallOk(s: State, n: nat)
    requires n in s.streamsOf
  {
    && n < |s.received| && StartOf(n, s.received[n], s.streamsOf[n]) in s.out
    && Ascending(s.streamsOf[n])
    && (forall i {:trigger s.streamsOf[n][i]} | 0 <= i < |s.streamsOf[n]| :: StreamOk(s, n, i))
  }

  ghost predicate Ascending(streams: seq<StreamId>) {
    forall i, j | 0 <= i < j < |streams| :: streams[i] < streams[j]
  }

  ghost predicate StreamOk(s: State, n: nat, i: nat)
    requires n in s.streamsOf && i < |s.streamsOf[n]|
  {
    var x := s.streamsOf[n][i];
    && x < s.nextStream
    && (x !in s.readers <==> s.starting.Some? && s.starting.value.request == n && i >= s.starting.value.inserted)
  }

  ghost predicate Owned(s: State, x: StreamId) {
    exists n :: n in s.streamsOf && x in s.streamsOf[n]
  }

  /** No two calls share a stream. */
  ghost predicate Disjoint(s: State) {
    forall n, m, x | n in s.streamsOf && m in s.streamsOf && x in s.streamsOf[n] && x in s.streamsOf[m] :: n == m
  }

  ghost predicate StreamsOk(s: State) {
    && Disjoint(s)
    && (forall n {:trigger CallOk(s, n)} | n in s.streamsOf :: CallOk(s, n))
    && (forall x {:trigger Owned(s, x)} | x in s.readers :: Owned(s, x))
    && (forall x | StreamEnded(x) in s.out :: x in s.readers && !s.readers[x])
    && (s.starting.Some? ==> s.starting.value.request in s.streamsOf
                             && s.starting.value.inserted <= |s.streamsOf[s.starting.value.request]|)
  }

  ghost predicate Inv(s: State) {
    AnswersOk(s) && OrderOk(s) && StreamsOk(s)
  }

  lemma InitialState()
    ensures Inv(INITIAL)
  {
  }

  // ----- Answers are kept

  lemma AnswersUnchanged(s: State, t: State)
    requires AnswersOk(s) && t.received == s.received && t.futures == s.futures && t.starting == s.starting
    requires t.out == s.out || (|t.out| > 0 && t.out == s.out + [t.out[|t.out| - 1]] && !t.out[|t.out| - 1].Response?)
    ensures AnswersOk(t)
  {
    forall n ensures Answers(t.out, n) == Answers(s.out, n) {
      if t.out != s.out {
        AnswersAfter(s.out, t.out[|t.out| - 1], n);
      }
    }
    forall n | 0 <= n < |t.received| ensures AnsweredOnce(t, n) {
      assert AnsweredOnce(s, n);
    }
  }

  lemma ApplyKeepsAnswers(s: State, msg: Incoming, r: Reaction, ids: nat -> StreamId)
    requires AnswersOk(s) && s.starting.None? && (r.Panic? || r.Resolve? <==> msg.methodName.None?)
    ensures AnswersOk(Apply(s, msg, r, ids))
  {
    var t, k := Apply(s, msg, r, ids), |s.received|;
    var answered := r.Answer? && msg.id.Some?;
    forall n ensures Answers(t.out, n) == Answers(s.out, n) + if answered && n == k then 1 else 0 {
      if answered || r.Start? {
        AnswersAfter(s.out, t.out[|s.out|], n);
      }
    }
    forall n | 0 <= n < |t.received| ensures AnsweredOnce(t, n) {
      if n < k {
        assert AnsweredOnce(s, n);
      }
    }
  }

  lemma FutureDoneKeepsAnswers(methods: map<string, Method>, s: State, k: nat, ok: bool)
    requires AnswersOk(s) && Enabled(s, FutureDone(k, ok))
    ensures AnswersOk(Step(methods, s, FutureDone(k, ok)))
  {
    var t := Step(methods, s, FutureDone(k, ok));
    if |t.out| > |s.out| {
      assert t.out == s.out + [t.out[|s.out|]];
    }
    forall n ensures Answers(t.out, n) == Answers(s.out, n)
                     + if s.received[k].id.Some? && n == k then 1 else 0 {
      if |t.out| > |s.out| {
        AnswersAfter(s.out, t.out[|s.out|], n);
      }
    }
    forall n | 0 <= n < |t.received| ensures AnsweredOnce(t, n) {
      assert AnsweredOnce(s, n);
    }
  }

  lemma StepKeepsAnswers(methods: map<string, Method>, s: State, e: Event)
    requires AnswersOk(s) && Enabled(s, e)
    ensures AnswersOk(Step(methods, s, e))
  {
    var t := Step(methods, s, e);
    match e
    case Dispatched(msg, paramsOk, callbackOk, ids) =>
      ApplyKeepsAnswers(s, msg, React(methods, msg, paramsOk, callbackOk), ids);
    case FutureDone(k, ok) => FutureDoneKeepsAnswers(methods, s, k, ok);
    case Read(_, _) => AnswersUnchanged(s, t);
    case ReadEnd(_) => AnswersUnchanged(s, t);
    case Call(_) => AnswersUnchanged(s, t);
    case _ =>
      forall n | 0 <= n < |t.received| ensures AnsweredOnce(t, n) {
        assert AnsweredOnce(s, n);
      }
  }

  // ----- Order is kept

  /** Calls known before keep their streams. */
  ghost predicate Extends(s: State, t: State) {
    && s.received <= t.received
    && (forall n | n in s.streamsOf :: n in t.streamsOf && t.streamsOf[n] == s.streamsOf[n])
    && (forall n | n in t.streamsOf && n !in s.streamsOf :: n >= |s.received|)
    && s.out <= t.out && |t.out| <= |s.out| + 1
  }

  lemma StillJustified(s: State, t: State, i: nat)
    requires Extends(s, t) && i < |s.out| && Justified(s, i)
    ensures Justified(t, i)
  {
    assert t.out[..i] == s.out[..i] && t.out[i] == s.out[i];
    if s.out[i].StreamData? || s.out[i].StreamEnded? {
      StillAnnounced(s, t, s.out[..i], s.out[i].stream);
    }
  }

  lemma StillAnnounced(s: State, t: State, sent: seq<Msg>, x: StreamId)
    requires Extends(s, t) && Announced(s, sent, x)
    ensures Announced(t, sent, x)
  {
    var n :| n in s.streamsOf && n < |s.received| && x in s.streamsOf[n]
             && StartOf(n, s.received[n], s.streamsOf[n]) in sent;
    assert n in t.streamsOf && t.streamsOf[n] == s.streamsOf[n] && t.received[n] == s.received[n];
  }

  /** Order is kept if the message sent by a step is justified. */
  lemma OrderKept(s: State, t: State)
    requires OrderOk(s) && Extends(s, t)
    requires |t.out| > |s.out| ==> Justified(t, |s.out|)
    ensures OrderOk(t)
  {
    hide Justified, Extends;
    assert |t.out| <= |s.out| + 1 by { ExtendsLength(s, t); }
    forall i | 0 <= i < |t.out| ensures Justified(t, i) {
      if i < |s.out| {
        assert Justified(s, i);
        StillJustified(s, t, i);
      }
    }
  }

  lemma ExtendsLength(s: State, t: State)
    requires Extends(s, t)
    ensures |s.out| <= |t.out| <= |s.out| + 1
  {
  }

  /** A stream whose reader runs was announced and has not ended. */
  lemma ReaderMaySend(s: State, x: StreamId)
    requires Inv(s) && x in s.readers && s.readers[x]
    ensures Announced(s, s.out, x) && StreamEnded(x) !in s.out
  {
    assert Owned(s, x);
    var n :| n in s.streamsOf && x in s.streamsOf[n];
    assert CallOk(s, n);
  }

  /** A step that sends nothing, or a message that is justified. */
  ghost predicate SendsWell(s: State, t: State) {
    Extends(s, t) && (|t.out| > |s.out| ==> Justified(t, |s.out|))
  }

  lemma ReadersSendWell(methods: map<string, Method>, s: State, e: Event)
    requires Inv(s) && Enabled(s, e) && (e.Read? || e.ReadEnd?)
    ensures SendsWell(s, Step(methods, s, e))
  {
    hide AnswersOk, OrderOk, Announced;
    var t := Step(methods, s, e);
    assert t.out[..|s.out|] == s.out;
    ReaderMaySend(s, e.stream);
    StillAnnounced(s, t, s.out, e.stream);
  }

  lemma ApplySendsWell(s: State, msg: Incoming, r: Reaction, ids: nat -> StreamId)
    requires Inv(s)
    ensures SendsWell(s, Apply(s, msg, r, ids))
  {
    hide AnswersOk, OrderOk;
    var t := Apply(s, msg, r, ids);
    CallsAreReceived(s);
    if r.Start? {
      NotSentYet(s, t.out[|s.out|]);
      assert t.out[..|s.out|] == s.out;
    } else if r.Answer? && msg.id.Some? {
      assert t.out[..|s.out|] == s.out;
    }
  }

  lemma CallsAreReceived(s: State)
    requires StreamsOk(s)
    ensures forall n | n in s.streamsOf :: n < |s.received|
  {
    forall n | n in s.streamsOf ensures n < |s.received| {
      assert CallOk(s, n);
    }
  }

  lemma FutureSendsWell(methods: map<string, Method>, s: State, k: nat, ok: bool)
    requires Inv(s) && Enabled(s, FutureDone(k, ok))
    ensures SendsWell(s, Step(methods, s, FutureDone(k, ok)))
  {
    hide AnswersOk, OrderOk;
    var t := Step(methods, s, FutureDone(k, ok));
    if s.received[k].id.Some? {
      assert t.out[..|s.out|] == s.out;
      assert k in s.streamsOf ==> CallOk(s, k);
    }
  }

  lemma StepSendsWell(methods: map<string, Method>, s: State, e: Event)
    requires Inv(s) && Enabled(s, e)
    ensures SendsWell(s, Step(methods, s, e))
  {
    hide Inv, Justified, Apply;
    match e
    case Read(_, _) => ReadersSendWell(methods, s, e);
    case ReadEnd(_) => ReadersSendWell(methods, s, e);
    case Dispatched(msg, paramsOk, callbackOk, ids) =>
      ApplySendsWell(s, msg, React(methods, msg, paramsOk, callbackOk), ids);
    case FutureDone(k, ok) => FutureSendsWell(methods, s, k, ok);
    case _ =>
  }

  lemma NotSentYet(s: State, m: Msg)
    requires Inv(s) && m.StreamsStarted? && m.request >= |s.received|
    ensures m !in s.out
  {
    forall i | 0 <= i < |s.out| ensures s.out[i] != m {
      assert Justified(s, i);
    }
  }

  // ----- Streams are kept

  /** A call keeps its place when its streams, their readers and the registration stay as they are. */
  lemma CallKept(s: State, t: State, n: nat)
    requires n in s.streamsOf && CallOk(s, n) && n in t.streamsOf && t.streamsOf[n] == s.streamsOf[n]
    requires s.received <= t.received && s.out <= t.out && s.nextStream <= t.nextStream
    requires forall x | x in s.streamsOf[n] :: x in t.readers <==> x in s.readers
    requires t.starting == s.starting || (s.starting.None? && t.starting.Some? && t.starting.value.request != n)
    ensures CallOk(t, n)
  {
    assert forall m | m in s.out :: m in t.out;
    forall i | 0 <= i < |t.streamsOf[n]| ensures StreamOk(t, n, i) {
      assert s.streamsOf[n][i] in s.streamsOf[n];
      assert StreamOk(s, n, i);
    }
  }

  /** A step that touches no stream, and sends no end of one. */
  lemma StreamsUntouched(s: State, t: State)
    requires StreamsOk(s) && Extends(s, t)
    requires t.streamsOf == s.streamsOf && t.readers == s.readers && t.nextStream >= s.nextStream
    requires t.starting == s.starting && (|t.out| > |s.out| ==> !t.out[|s.out|].StreamEnded?)
    ensures StreamsOk(t)
  {
    forall n | n in t.streamsOf ensures CallOk(t, n) {
      assert CallOk(s, n);
      CallKept(s, t, n);
    }
    forall x | x in t.readers ensures Owned(t, x) {
      assert Owned(s, x);
    }
    forall x | StreamEnded(x) in t.out ensures x in t.readers && !t.readers[x] {
      assert StreamEnded(x) in s.out;
    }
  }

  lemma StartKeepsStreams(s: State, msg: Incoming, k: nat, ids: nat -> StreamId)
    requires StreamsOk(s) && s.starting.None? && Fresh(ids, s.nextStream)
    ensures StreamsOk(Apply(s, msg, Start(k), ids))
  {
    var t, m := Apply(s, msg, Start(k), ids), |s.received|;
    CallsAreReceived(s);
    StreamsAreOld(s);
    assert forall x | x in t.streamsOf[m] :: x >= s.nextStream;
    assert Disjoint(t);
    forall n | n in t.streamsOf ensures CallOk(t, n) {
      if n in s.streamsOf {
        assert CallOk(s, n);
        CallKept(s, t, n);
      } else {
        assert t.out[|s.out|] in t.out;
        assert forall i | 0 <= i < |t.streamsOf[n]| :: StreamOk(t, n, i);
      }
    }
    forall x | x in t.readers ensures Owned(t, x) {
      OwnedKept(s, t, x);
    }
  }

  lemma OwnedKept(s: State, t: State, x: StreamId)
    requires Owned(s, x) && forall n | n in s.streamsOf :: n in t.streamsOf && t.streamsOf[n] == s.streamsOf[n]
    ensures Owned(t, x)
  {
    var n :| n in s.streamsOf && x in s.streamsOf[n];
    assert n in t.streamsOf && x in t.streamsOf[n];
  }

  lemma StreamsAreOld(s: State)
    requires StreamsOk(s)
    ensures forall n, x | n in s.streamsOf && x in s.streamsOf[n] :: x < s.nextStream
    ensures forall x | x in s.readers :: x < s.nextStream
  {
    forall n, x | n in s.streamsOf && x in s.streamsOf[n] ensures x < s.nextStream {
      assert CallOk(s, n);
      var i :| 0 <= i < |s.streamsOf[n]| && s.streamsOf[n][i] == x;
      assert StreamOk(s, n, i);
    }
    forall x | x in s.readers ensures x < s.nextStream {
      assert Owned(s, x);
    }
  }

  lemma InsertKeepsStreams(s: State)
    requires StreamsOk(s) && Enabled(s, InsertStream)
    ensures StreamsOk(InsertStreamStep(s))
  {
    var t := InsertStreamStep(s);
    var r, i := s.starting.value.request, s.starting.value.inserted;
    var x := s.streamsOf[r][i];
    assert CallOk(s, r) && StreamOk(s, r, i);
    forall n | n in t.streamsOf ensures CallOk(t, n) {
      assert CallOk(s, n);
      forall j | 0 <= j < |t.streamsOf[n]| ensures StreamOk(t, n, j) {
        assert StreamOk(s, n, j);
        assert s.streamsOf[n][j] in s.streamsOf[n];
      }
    }
    forall y | y in t.readers ensures Owned(t, y) {
      assert y != x ==> Owned(s, y);
      assert x in s.streamsOf[r];
    }
  }

  lemma StartFutureKeepsStreams(s: State, t: State)
    requires StreamsOk(s) && Enabled(s, StartFuture)
    requires t == s.(futures := t.futures, starting := None)
    ensures StreamsOk(t)
  {
    forall n | n in t.streamsOf ensures CallOk(t, n) {
      assert CallOk(s, n);
      forall i | 0 <= i < |t.streamsOf[n]| ensures StreamOk(t, n, i) {
        assert StreamOk(s, n, i);
      }
    }
    forall x | x in t.readers ensures Owned(t, x) {
      assert Owned(s, x);
    }
  }

  lemma ReadEndKeepsStreams(s: State, x: StreamId)
    requires StreamsOk(s) && x in s.readers
    ensures StreamsOk(Send(s, StreamEnded(x)).(readers := s.readers[x := false]))
  {
    var t := Send(s, StreamEnded(x)).(readers := s.readers[x := false]);
    forall n | n in t.streamsOf ensures CallOk(t, n) {
      assert CallOk(s, n);
      CallKept(s, t, n);
    }
    forall y | y in t.readers ensures Owned(t, y) {
      assert Owned(s, y);
    }
  }

  lemma ApplyKeepsStreams(s: State, msg: Incoming, r: Reaction, ids: nat -> StreamId)
    requires Inv(s) && s.starting.None? && Fresh(ids, s.nextStream)
    ensures StreamsOk(Apply(s, msg, r, ids))
  {
    hide AnswersOk, OrderOk, StreamsOk, Justified, Extends;
    ApplySendsWell(s, msg, r, ids);
    if r.Start? {
      StartKeepsStreams(s, msg, r.streams, ids);
    } else {
      StreamsUntouched(s, Apply(s, msg, r, ids));
    }
  }

  lemma StepKeepsStreams(methods: map<string, Method>, s: State, e: Event)
    requires Inv(s) && Enabled(s, e)
    ensures StreamsOk(Step(methods, s, e))
  {
    hide AnswersOk, OrderOk, StreamsOk, Justified, Extends, Apply;
    var t := Step(methods, s, e);
    StepSendsWell(methods, s, e);
    match e
    case InsertStream => InsertKeepsStreams(s);
    case StartFuture => StartFutureKeepsStreams(s, t);
    case ReadEnd(x) => ReadEndKeepsStreams(s, x);
    case Dispatched(msg, paramsOk, callbackOk, ids) =>
      ApplyKeepsStreams(s, msg, React(methods, msg, paramsOk, callbackOk), ids);
    case _ => StreamsUntouched(s, t);
  }

  /** Every step keeps the invariant. */
  lemma StepKeepsInv(methods: map<string, Method>, s: State, e: Event)
    requires Inv(s) && Enabled(s, e)
    ensures Inv(Step(methods, s, e))
  {
    hide AnswersOk, OrderOk, StreamsOk, Extends, Justified;
    StepKeepsAnswers(methods, s, e);
    StepSendsWell(methods, s, e);
    OrderKept(s, Step(methods, s, e));
    StepKeepsStreams(methods, s, e);
  }

  // ----- Whole runs

  ghost predicate RunStep(methods: map<string, Method>, states: seq<State>, events: seq<Event>, i: nat)
    requires i < |events| && |states| == |events| + 1
  {
    Enabled(states[i], events[i]) && states[i + 1] == Step(methods, states[i], events[i])
  }

  ghost predicate IsRun(methods: map<string, Method>, states: seq<State>, events: seq<Event>) {
    && |states| == |events| + 1 && states[0] == INITIAL
    && forall i | 0 <= i < |events| :: RunStep(methods, states, events, i)
  }

  lemma {:induction false} RunKeepsInv(methods: map<string, Method>, states: seq<State>, events: seq<Event>, k: nat)
    requires IsRun(methods, states, events) && k < |states|
    ensures Inv(states[k])
  {
    hide Inv;
    if k == 0 {
      InitialState();
    } else {
      RunKeepsInv(methods, states, events, k - 1);
      assert RunStep(methods, states, events, k - 1);
      StepKeepsInv(methods, states[k - 1], events[k - 1]);
    }
  }

  /** A request with an id is answered at most once, and exactly once when nothing is left to do for it. */
  lemma ExactlyOneResponse(s: State, n: nat)
    requires Inv(s) && n < |s.received|
    ensures Answers(s.out, n) <= if WantsAnswer(s.received[n]) then 1 else 0
    ensures !Outstanding(s, n) ==> Answers(s.out, n) == if WantsAnswer(s.received[n]) then 1 else 0
  {
    assert AnsweredOnce(s, n);
  }

  /** The answer carries the id of its request, and comes after the start of its streams. */
  lemma AnswerMatches(s: State, i: nat)
    requires Inv(s) && i < |s.out| && s.out[i].Response?
    ensures var n := s.out[i].request;
            && n < |s.received| && s.received[n].id == Some(s.out[i].id)
            && (n in s.streamsOf ==> StartOf(n, s.received[n], s.streamsOf[n]) in s.out[..i])
  {
    assert Justified(s, i);
  }

  ghost predicate Concerns(m: Msg, x: StreamId) {
    (m.StreamData? || m.StreamEnded?) && m.stream == x
  }

  /** What is sent at `j` comes after the start of stream `x` and not after its end. */
  ghost predicate Between(s: State, j: nat, x: StreamId)
    requires j < |s.out|
  {
    Announced(s, s.out[..j], x) && StreamEnded(x) !in s.out[..j]
  }

  /** Stream messages come after the start of their stream, and none comes after its end. */
  lemma StreamMessagesInOrder(s: State, j: nat, x: StreamId)
    requires Inv(s) && j < |s.out| && Concerns(s.out[j], x)
    ensures Between(s, j, x)
  {
    assert Justified(s, j);
  }

  /** When the next frame is dispatched, all streams of the calls before it are registered. */
  lemma StreamsAreRegistered(s: State, n: nat, x: StreamId)
    requires Inv(s) && s.starting.None? && n in s.streamsOf && x in s.streamsOf[n]
    ensures x in s.readers
  {
    assert CallOk(s, n);
    var i :| 0 <= i < |s.streamsOf[n]| && s.streamsOf[n][i] == x;
    assert StreamOk(s, n, i);
  }

  /**
   What a client may rely on at any moment of any run: requests are answered once and only when they
   ask for it, with their own id and after their streams have been announced; stream messages lie
   between the announcement and the end of their stream; and whenever a frame may be dispatched, all
   streams of earlier frames are in the map.
   */
  lemma EveryRun(methods: map<string, Method>, states: seq<State>, events: seq<Event>, k: nat)
    requires IsRun(methods, states, events) && k < |states|
    ensures var s := states[k];
            && (forall n | 0 <= n < |s.received| && !Outstanding(s, n) ::
                  Answers(s.out, n) == if WantsAnswer(s.received[n]) then 1 else 0)
            && (forall n | 0 <= n < |s.received| :: Answers(s.out, n) <= if WantsAnswer(s.received[n]) then 1 else 0)
            && (forall i | 0 <= i < |s.out| && s.out[i].Response? ::
                  && s.out[i].request < |s.received| && s.received[s.out[i].request].id == Some(s.out[i].id)
                  && var n := s.out[i].request;
                  n in s.streamsOf ==> StartOf(n, s.received[n], s.streamsOf[n]) in s.out[..i])
            && (forall j, x | 0 <= j < |s.out| && Concerns(s.out[j], x) :: Between(s, j, x))
            && (s.starting.None? ==> forall n, x | n in s.streamsOf && x in s.streamsOf[n] :: x in s.readers)
  {
    hide Inv, Outstanding, Between, WantsAnswer, Answers, StartOf, Concerns;
    RunKeepsInv(methods, states, events, k);
    var s := states[k];
    forall n | 0 <= n < |s.received|
      ensures Answers(s.out, n) <= if WantsAnswer(s.received[n]) then 1 else 0
      ensures !Outstanding(s, n) ==> Answers(s.out, n) == if WantsAnswer(s.received[n]) then 1 else 0
    {
      ExactlyOneResponse(s, n);
    }
    forall i | 0 <= i < |s.out| && s.out[i].Response?
      ensures s.out[i].request < |s.received| && s.received[s.out[i].request].id == Some(s.out[i].id)
      ensures s.out[i].request in s.streamsOf ==>
                StartOf(s.out[i].request, s.received[s.out[i].request], s.streamsOf[s.out[i].request]) in s.out[..i]
    {
      AnswerMatches(s, i);
    }
    forall j, x | 0 <= j < |s.out| && Concerns(s.out[j], x)
      ensures Between(s, j, x)
    {
      StreamMessagesInOrder(s, j, x);
    }
    if s.starting.None? {
      forall n, x | n in s.streamsOf && x in s.streamsOf[n] ensures x in s.readers {
        StreamsAreRegistered(s, n, x);
      }
    }
  }
}
