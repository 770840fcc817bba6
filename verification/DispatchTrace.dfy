/**
 What a connection sends, told from what has happened to it alone: which frames came, what their
 callbacks and futures said, and what the readers of its streams read.
 */
module DispatchTraces {
  import opened Common
  import opened Dispatch

  // ----- What has happened

  /** The frames dispatched so far. */
  ghost function Frames(es: seq<Event>): (r: seq<Event>)
    ensures forall n | 0 <= n < |r| :: r[n].Dispatched?
  {
    if es == [] then []
    else Frames(es[..|es| - 1]) + if es[|es| - 1].Dispatched? then [es[|es| - 1]] else []
  }

  /** What a stream had to say: a piece of data, or that there is no more. */
  datatype Chunk = Data(segment: seq<int>) | End

  ghost function ReadBy(es: seq<Event>, x: StreamId): seq<Chunk> {
    if es == [] then []
    else ReadBy(es[..|es| - 1], x) +
         match es[|es| - 1]
         case Read(y, segment) => if y == x then [Data(segment)] else []
         case ReadEnd(y) => if y == x then [End] else []
         case _ => []
  }

  ghost function SentFor(out: seq<Msg>, x: StreamId): seq<Chunk> {
    if out == [] then []
    else SentFor(out[..|out| - 1], x) +
         match out[|out| - 1]
         case StreamData(y, segment) => if y == x then [Data(segment)] else []
         case StreamEnded(y) => if y == x then [End] else []
         case _ => []
  }

  /** The future of request `n` has ended. */
  ghost predicate Ended(es: seq<Event>, n: nat) {
    FutureDone(n, true) in es || FutureDone(n, false) in es
  }

  /** A reply to our call `id`. */
  ghost predicate IsReply(e: Event, id: nat) {
    e.Dispatched? && e.msg.methodName.None? && e.msg.id == Some(id)
  }

  ghost predicate CalledAt(es: seq<Event>, id: nat, i: nat) {
    i < |es| && es[i] == Call(id) && forall j | i < j < |es| :: !IsReply(es[j], id)
  }

  /** We called, and no reply has come since. */
  ghost predicate Called(es: seq<Event>, id: nat) {
    exists i: nat :: CalledAt(es, id, i)
  }

  lemma OneMore(es: seq<Event>, e: Event)
    ensures (es + [e])[..|es + [e]| - 1] == es
    ensures Frames(es + [e]) == Frames(es) + if e.Dispatched? then [e] else []
  {
  }

  // ----- What is due

  /** The frame asks for a method. */
  ghost predicate Asks(f: Event) {
    f.Dispatched? && f.msg.methodName.Some?
  }

  ghost predicate Registered(methods: map<string, Method>, f: Event) {
    Asks(f) && f.msg.methodName.value in methods
  }

  ghost function MethodOf(methods: map<string, Method>, f: Event): Method
    requires Registered(methods, f)
  {
    methods[f.msg.methodName.value]
  }

  /** The callback of request `n`, the frame `f`, came to `ok`; unless it is synchronous, that is up to its future. */
  ghost predicate CameTo(methods: map<string, Method>, es: seq<Event>, n: nat, f: Event, ok: bool)
    requires Registered(methods, f)
  {
    if MethodOf(methods, f).Sync? then f.callbackOk == ok else FutureDone(n, ok) in es
  }

  /** Request `n` has come to `status`. */
  ghost predicate Outcome(methods: map<string, Method>, es: seq<Event>, n: nat, f: Event, status: Status)
    requires Asks(f)
  {
    && (status == NotFound <==> !Registered(methods, f))
    && (status == InvalidParams <==> Registered(methods, f) && !f.paramsOk)
    && (status == Success ==> CameTo(methods, es, n, f, true))
    && (status == Failed ==> CameTo(methods, es, n, f, false))
    && (status == InvalidParams ==> MethodOf(methods, f).Sync? || Ended(es, n))
  }

  /** Request `n` is to be answered by `status` under `id`. */
  ghost predicate Due(methods: map<string, Method>, es: seq<Event>, n: nat, id: nat, status: Status) {
    && n < |Frames(es)| && Asks(Frames(es)[n]) && Frames(es)[n].msg.id == Some(id)
    && Outcome(methods, es, n, Frames(es)[n], status)
  }

  /** The frame asks for a duplex method with parameters that it takes; `ids` are its streams. */
  ghost predicate Announces(methods: map<string, Method>, f: Event, forId: nat, ids: seq<StreamId>) {
    && Registered(methods, f) && MethodOf(methods, f) == Duplex(|ids|) && f.paramsOk
    && (f.msg.id == Some(forId) || (f.msg.id.None? && forId == 0))
    && forall i | 0 <= i < |ids| :: ids[i] == f.ids(i)
  }

  /** Request `n` is such a frame. */
  ghost predicate Announceable(methods: map<string, Method>, es: seq<Event>, n: nat, forId: nat, ids: seq<StreamId>) {
    n < |Frames(es)| && Announces(methods, Frames(es)[n], forId, ids)
  }

  // ----- The state tells what has happened

  ghost predicate FramesOk(es: seq<Event>, s: State) {
    && |Frames(es)| == |s.received|
    && forall n | 0 <= n < |s.received| :: Frames(es)[n].msg == s.received[n]
  }

  /** What a step may send. */
  ghost predicate SendsOne(s: State, t: State, e: Event) {
    && t.received == s.received + (if e.Dispatched? then [e.msg] else [])
    && (t.out == s.out || (|t.out| == |s.out| + 1 && t.out == s.out + [t.out[|s.out|]]))
    && (t.out != s.out ==>
          (t.out[|s.out|].StreamData? || t.out[|s.out|].StreamEnded? <==> e.Read? || e.ReadEnd?))
  }

  lemma DispatchSendsOne(s: State, e: Event, r: Reaction)
    requires e.Dispatched?
    ensures SendsOne(s, Apply(s, e.msg, r, e.ids), e)
  {
    hide NewStreams;
  }

  /** A step receives the frame it dispatches, and sends at most one message; only readers send stream messages. */
  lemma OneStep(methods: map<string, Method>, s: State, e: Event)
    requires Enabled(s, e)
    ensures SendsOne(s, Step(methods, s, e), e)
  {
    hide Fresh, Apply, React;
    if e.Dispatched? {
      DispatchSendsOne(s, e, React(methods, e.msg, e.paramsOk, e.callbackOk));
    }
  }

  lemma StepKeepsFrames(methods: map<string, Method>, es: seq<Event>, s: State, e: Event)
    requires FramesOk(es, s) && Enabled(s, e)
    ensures FramesOk(es + [e], Step(methods, s, e))
  {
    OneMore(es, e);
    OneStep(methods, s, e);
    hide Frames, Step, Enabled;
  }

  lemma SentAfter(out: seq<Msg>, m: Msg, x: StreamId)
    ensures SentFor(out + [m], x) == SentFor(out, x) +
              match m
              case StreamData(y, segment) => if y == x then [Data(segment)] else []
              case StreamEnded(y) => if y == x then [End] else []
              case _ => []
  {
    assert (out + [m])[..|out|] == out;
  }

  lemma StepKeepsStreams(methods: map<string, Method>, es: seq<Event>, s: State, e: Event, x: StreamId)
    requires SentFor(s.out, x) == ReadBy(es, x) && Enabled(s, e)
    ensures SentFor(Step(methods, s, e).out, x) == ReadBy(es + [e], x)
  {
    hide Fresh, SentFor, Apply, React;
    OneMore(es, e);
    OneStep(methods, s, e);
    var t := Step(methods, s, e);
    if t.out != s.out {
      SentAfter(s.out, t.out[|s.out|], x);
    }
  }

  // ----- Futures

  ghost predicate HasFuture(methods: map<string, Method>, f: Event) {
    Registered(methods, f) && !MethodOf(methods, f).Sync?
  }

  ghost predicate IsStarting(s: State, n: nat) {
    s.starting.Some? && s.starting.value.request == n
  }

  /** Where the future of request `n` stands: to come after its streams, running, or ended. */
  ghost predicate FutureOk(methods: map<string, Method>, es: seq<Event>, s: State, n: nat)
    requires n < |Frames(es)|
  {
    var f := Frames(es)[n];
    && !(FutureDone(n, true) in es && FutureDone(n, false) in es) && !(n in s.futures && IsStarting(s, n))
    && (n in s.futures || IsStarting(s, n) <==> HasFuture(methods, f) && !Ended(es, n))
    && (n in s.futures ==> s.futures[n] == if f.paramsOk then Running else Ready(InvalidParams))
    && (IsStarting(s, n) ==> f.paramsOk)
    && (Ended(es, n) ==> HasFuture(methods, f))
  }

  ghost predicate HasActed(es: seq<Event>, s: State, n: nat) {
    n in s.futures || IsStarting(s, n) || Ended(es, n)
  }

  ghost predicate FuturesOk(methods: map<string, Method>, es: seq<Event>, s: State) {
    && |Frames(es)| == |s.received|
    && (forall n: nat {:trigger HasActed(es, s, n)} | HasActed(es, s, n) :: n < |Frames(es)|)
    && (forall n {:trigger FutureOk(methods, es, s, n)} | 0 <= n < |Frames(es)| :: FutureOk(methods, es, s, n))
  }

  /** The frame `e`, request `n`, has got its future if it needs one, and nothing else has changed. */
  ghost predicate GotFuture(methods: map<string, Method>, s: State, t: State, e: Event, n: nat)
    requires e.Dispatched?
  {
    && (t.futures == s.futures || t.futures == s.futures[n := if e.paramsOk then Running else Ready(InvalidParams)])
    && (t.starting.None? || (IsStarting(t, n) && e.paramsOk && t.futures == s.futures))
    && (IsStarting(t, n) || n in t.futures <==> HasFuture(methods, e))
  }

  lemma ApplyGivesFuture(s: State, msg: Incoming, r: Reaction, ids: nat -> StreamId)
    ensures var t, n := Apply(s, msg, r, ids), |s.received|;
      && t.futures == (if r.Spawn? then s.futures[n := r.future] else s.futures)
      && t.starting == if r.Start? then Some(Starting(n, 0)) else s.starting
  {
    hide NewStreams;
  }

  lemma DispatchGivesFuture(methods: map<string, Method>, s: State, e: Event)
    requires Enabled(s, e) && e.Dispatched? && |s.received| !in s.futures
    ensures GotFuture(methods, s, Step(methods, s, e), e, |s.received|)
  {
    hide Apply, Fresh;
    ApplyGivesFuture(s, e.msg, React(methods, e.msg, e.paramsOk, e.callbackOk), e.ids);
  }

  lemma DispatchKeepsFutures(methods: map<string, Method>, es: seq<Event>, s: State, e: Event)
    requires FuturesOk(methods, es, s) && Enabled(s, e) && e.Dispatched?
    ensures FuturesOk(methods, es + [e], Step(methods, s, e))
  {
    OneMore(es, e);
    OneStep(methods, s, e);
    assert !HasActed(es, s, |s.received|);
    DispatchGivesFuture(methods, s, e);
    var t := Step(methods, s, e);
    hide Step, Fresh, Frames, HasFuture;
    forall n: nat | HasActed(es + [e], t, n) ensures n < |Frames(es + [e])| {
      assert n == |s.received| || HasActed(es, s, n);
    }
    forall n | 0 <= n < |Frames(es + [e])| ensures FutureOk(methods, es + [e], t, n) {
      assert Ended(es + [e], n) <==> Ended(es, n);
      if n < |Frames(es)| {
        assert FutureOk(methods, es, s, n);
      }
    }
  }

  lemma FutureDoneKeepsFutures(methods: map<string, Method>, es: seq<Event>, s: State, e: Event)
    requires FuturesOk(methods, es, s) && Enabled(s, e) && e.FutureDone?
    ensures FuturesOk(methods, es + [e], Step(methods, s, e))
  {
    hide Frames;
    OneMore(es, e);
    var t := Step(methods, s, e);
    assert HasActed(es, s, e.request);
    forall n: nat | HasActed(es + [e], t, n) ensures n < |Frames(es + [e])| {
      assert HasActed(es, s, n);
    }
    forall n | 0 <= n < |Frames(es + [e])| ensures FutureOk(methods, es + [e], t, n) {
      assert FutureOk(methods, es, s, n);
    }
  }

  lemma StepKeepsFutures(methods: map<string, Method>, es: seq<Event>, s: State, e: Event)
    requires FuturesOk(methods, es, s) && Enabled(s, e)
    ensures FuturesOk(methods, es + [e], Step(methods, s, e))
  {
    hide NewStreams, Fresh, Frames, Apply;
    if e.Dispatched? {
      DispatchKeepsFutures(methods, es, s, e);
    } else if e.FutureDone? {
      FutureDoneKeepsFutures(methods, es, s, e);
    } else {
      OneMore(es, e);
      var t := Step(methods, s, e);
      forall n: nat | HasActed(es + [e], t, n) ensures n < |Frames(es + [e])| {
        assert HasActed(es, s, n);
      }
      forall n | 0 <= n < |Frames(es + [e])| ensures FutureOk(methods, es + [e], t, n) {
        assert FutureOk(methods, es, s, n);
      }
    }
  }

  // ----- Responses

  /** Exactly the responses that are due have been sent. */
  ghost predicate ResponsesOk(methods: map<string, Method>, es: seq<Event>, s: State) {
    forall n: nat, id: nat, status ::
      Response(n, id, status) in s.out <==> Due(methods, es, n, id, status)
  }

  /** What other requests are due stays the same. */
  lemma OthersDue(methods: map<string, Method>, es: seq<Event>, e: Event, n: nat, id: nat, status: Status)
    requires e.Dispatched? ==> n != |Frames(es)|
    requires e.FutureDone? ==> n != e.request
    ensures Due(methods, es + [e], n, id, status) <==> Due(methods, es, n, id, status)
  {
    OneMore(es, e);
    hide Frames;
    assert forall ok :: FutureDone(n, ok) in es + [e] <==> FutureDone(n, ok) in es;
  }

  /** Dispatching answers at once where there is nothing to wait for. */
  lemma AnswersAtOnce(methods: map<string, Method>, es: seq<Event>, n: nat, e: Event, status: Status)
    requires Asks(e) && !Ended(es, n)
    ensures React(methods, e.msg, e.paramsOk, e.callbackOk) == Answer(status) <==> Outcome(methods, es, n, e, status)
  {
  }

  /** What the frame just dispatched is due: an answer at once, or none until its future ends. */
  lemma DueAtOnce(methods: map<string, Method>, es: seq<Event>, e: Event, id: nat, status: Status)
    requires e.Dispatched? && !Ended(es, |Frames(es)|)
    ensures var r := React(methods, e.msg, e.paramsOk, e.callbackOk);
      Due(methods, es + [e], |Frames(es)|, id, status) <==> e.msg.id == Some(id) && r == Answer(status)
  {
    OneMore(es, e);
    var n := |Frames(es)|;
    assert !Ended(es + [e], n);
    hide Frames, Outcome, Ended;
    if Asks(e) {
      hide React;
      AnswersAtOnce(methods, es + [e], n, e, status);
    }
  }

  lemma ApplySends(s: State, msg: Incoming, r: Reaction, ids: nat -> StreamId)
    ensures var t, n := Apply(s, msg, r, ids), |s.received|;
      t.out == s.out + (if r.Answer? && msg.id.Some? then [Response(n, msg.id.value, r.status)]
                        else if r.Start? then [StartOf(n, msg, NewStreams(ids, r.streams))] else [])
  {
    hide NewStreams;
  }

  lemma DispatchKeepsResponses(methods: map<string, Method>, es: seq<Event>, s: State, e: Event)
    requires ResponsesOk(methods, es, s) && FuturesOk(methods, es, s) && Enabled(s, e) && e.Dispatched?
    ensures ResponsesOk(methods, es + [e], Step(methods, s, e))
  {
    hide Apply, Fresh, Due, React;
    assert !HasActed(es, s, |s.received|);
    var r := React(methods, e.msg, e.paramsOk, e.callbackOk);
    ApplySends(s, e.msg, r, e.ids);
    var t := Step(methods, s, e);
    forall n: nat, id: nat, status
      ensures Response(n, id, status) in t.out <==> Due(methods, es + [e], n, id, status)
    {
      if n == |s.received| {
        NothingDueYet(methods, es, n, id, status);
        DueAtOnce(methods, es, e, id, status);
      } else {
        OthersDue(methods, es, e, n, id, status);
      }
    }
  }

  lemma NothingDueYet(methods: map<string, Method>, es: seq<Event>, n: nat, id: nat, status: Status)
    requires n >= |Frames(es)|
    ensures !Due(methods, es, n, id, status)
  {
  }

  /** What a request is due when its future ends. */
  lemma DueWhenEnded(methods: map<string, Method>, es: seq<Event>, s: State, n: nat, ok: bool, id: nat, status: Status)
    requires FuturesOk(methods, es, s) && FramesOk(es, s) && n in s.futures && n < |s.received|
    ensures !Due(methods, es, n, id, status)
    ensures Due(methods, es + [FutureDone(n, ok)], n, id, status) <==>
              s.received[n].id == Some(id)
              && status == match s.futures[n] { case Ready(st) => st case Running => if ok then Success else Failed }
  {
    OneMore(es, FutureDone(n, ok));
    hide Frames;
    assert FutureOk(methods, es, s, n);
    assert FutureDone(n, !ok) !in es + [FutureDone(n, ok)];
  }

  lemma FutureDoneKeepsResponses(methods: map<string, Method>, es: seq<Event>, s: State, e: Event)
    requires ResponsesOk(methods, es, s) && FuturesOk(methods, es, s) && FramesOk(es, s)
    requires Enabled(s, e) && e.FutureDone?
    ensures ResponsesOk(methods, es + [e], Step(methods, s, e))
  {
    hide Due, FuturesOk, FramesOk;
    var t := Step(methods, s, e);
    forall n: nat, id: nat, status
      ensures Response(n, id, status) in t.out <==> Due(methods, es + [e], n, id, status)
    {
      if n == e.request {
        DueWhenEnded(methods, es, s, n, e.callbackOk, id, status);
      } else {
        OthersDue(methods, es, e, n, id, status);
      }
    }
  }

  lemma StepKeepsResponses(methods: map<string, Method>, es: seq<Event>, s: State, e: Event)
    requires ResponsesOk(methods, es, s) && FuturesOk(methods, es, s) && FramesOk(es, s) && Enabled(s, e)
    ensures ResponsesOk(methods, es + [e], Step(methods, s, e))
  {
    hide Due, FuturesOk, FramesOk, Apply, Fresh;
    if e.Dispatched? {
      DispatchKeepsResponses(methods, es, s, e);
    } else if e.FutureDone? {
      FutureDoneKeepsResponses(methods, es, s, e);
    } else {
      var t := Step(methods, s, e);
      forall n: nat, id: nat, status
        ensures Response(n, id, status) in t.out <==> Due(methods, es + [e], n, id, status)
      {
        OthersDue(methods, es, e, n, id, status);
      }
    }
  }

  // ----- Announcements

  /** Exactly the streams that are to be announced have been announced. */
  ghost predicate StartsOk(methods: map<string, Method>, es: seq<Event>, s: State) {
    forall n: nat, forId: nat, ids ::
      StreamsStarted(n, forId, ids) in s.out <==> Announceable(methods, es, n, forId, ids)
  }

  lemma AnnouncesAtOnce(methods: map<string, Method>, e: Event, n: nat, forId: nat, ids: seq<StreamId>)
    requires e.Dispatched?
    ensures var r := React(methods, e.msg, e.paramsOk, e.callbackOk);
      Announces(methods, e, forId, ids) <==>
        r.Start? && StreamsStarted(n, forId, ids) == StartOf(n, e.msg, NewStreams(e.ids, r.streams))
  {
    if Announces(methods, e, forId, ids) {
      assert ids == NewStreams(e.ids, |ids|);
    }
  }

  lemma AnnounceableNow(methods: map<string, Method>, es: seq<Event>, e: Event, n: nat, forId: nat, ids: seq<StreamId>)
    requires e.Dispatched? && n == |Frames(es)|
    ensures var r := React(methods, e.msg, e.paramsOk, e.callbackOk);
      Announceable(methods, es + [e], n, forId, ids) <==>
        r.Start? && StreamsStarted(n, forId, ids) == StartOf(n, e.msg, NewStreams(e.ids, r.streams))
    ensures !Announceable(methods, es, n, forId, ids)
  {
    hide React, StartOf, Announces;
    OneMore(es, e);
    AnnouncesAtOnce(methods, e, n, forId, ids);
  }

  lemma OthersAnnounceable(methods: map<string, Method>, es: seq<Event>, e: Event, n: nat, forId: nat,
                           ids: seq<StreamId>)
    requires e.Dispatched? ==> n != |Frames(es)|
    ensures Announceable(methods, es + [e], n, forId, ids) <==> Announceable(methods, es, n, forId, ids)
  {
    OneMore(es, e);
  }

  lemma StepKeepsStarts(methods: map<string, Method>, es: seq<Event>, s: State, e: Event)
    requires StartsOk(methods, es, s) && FramesOk(es, s) && Enabled(s, e)
    ensures StartsOk(methods, es + [e], Step(methods, s, e))
  {
    hide Announceable, Apply, Fresh, React, Frames;
    var t := Step(methods, s, e);
    if e.Dispatched? {
      ApplySends(s, e.msg, React(methods, e.msg, e.paramsOk, e.callbackOk), e.ids);
    }
    forall n: nat, forId: nat, ids
      ensures StreamsStarted(n, forId, ids) in t.out <==> Announceable(methods, es + [e], n, forId, ids)
    {
      if e.Dispatched? && n == |s.received| {
        AnnounceableNow(methods, es, e, n, forId, ids);
      } else {
        OthersAnnounceable(methods, es, e, n, forId, ids);
      }
    }
  }

  // ----- Our own calls

  lemma CalledAfter(es: seq<Event>, e: Event, id: nat)
    ensures Called(es + [e], id) <==> e == Call(id) || (Called(es, id) && !IsReply(e, id))
  {
    var more := es + [e];
    if e == Call(id) {
      assert CalledAt(more, id, |es|);
    }
    if Called(more, id) && e != Call(id) {
      var i: nat :| CalledAt(more, id, i);
      assert forall j | i < j < |es| :: more[j] == es[j];
      assert CalledAt(es, id, i);
      assert more[|es|] == e;
    }
    if Called(es, id) && !IsReply(e, id) {
      var i: nat :| CalledAt(es, id, i);
      assert CalledAt(more, id, i);
    }
  }

  lemma StepKeepsCalls(methods: map<string, Method>, es: seq<Event>, s: State, e: Event, id: nat)
    requires (id in s.calls <==> Called(es, id)) && Enabled(s, e)
    ensures id in Step(methods, s, e).calls <==> Called(es + [e], id)
  {
    hide Called, NewStreams, Fresh;
    CalledAfter(es, e, id);
  }

  // ----- Whole runs

  /** The state, seen as an account of what has happened. */
  ghost predicate Traced(methods: map<string, Method>, es: seq<Event>, s: State) {
    && FramesOk(es, s) && FuturesOk(methods, es, s) && ResponsesOk(methods, es, s) && StartsOk(methods, es, s)
    && (forall x :: SentFor(s.out, x) == ReadBy(es, x))
    && (forall id: nat :: id in s.calls <==> Called(es, id))
  }

  lemma StepKeepsTrace(methods: map<string, Method>, es: seq<Event>, s: State, e: Event)
    requires Traced(methods, es, s) && Enabled(s, e)
    ensures Traced(methods, es + [e], Step(methods, s, e))
  {
    hide FramesOk, FuturesOk, ResponsesOk, StartsOk, SentFor, ReadBy, Called, Step, Enabled;
    StepKeepsFrames(methods, es, s, e);
    StepKeepsFutures(methods, es, s, e);
    StepKeepsResponses(methods, es, s, e);
    StepKeepsStarts(methods, es, s, e);
    forall x ensures SentFor(Step(methods, s, e).out, x) == ReadBy(es + [e], x) {
      StepKeepsStreams(methods, es, s, e, x);
    }
    forall id: nat ensures id in Step(methods, s, e).calls <==> Called(es + [e], id) {
      StepKeepsCalls(methods, es, s, e, id);
    }
  }

  lemma {:induction false} RunIsTraced(methods: map<string, Method>, states: seq<State>, events: seq<Event>, k: nat)
    requires IsRun(methods, states, events) && k < |states|
    ensures Traced(methods, events[..k], states[k])
  {
    if k > 0 {
      hide Traced, Step, Enabled;
      RunIsTraced(methods, states, events, k - 1);
      assert RunStep(methods, states, events, k - 1);
      StepKeepsTrace(methods, events[..k - 1], states[k - 1], events[k - 1]);
      assert events[..k - 1] + [events[k - 1]] == events[..k];
    }
  }

  /** A stream carries what its reader read, piece by piece and in that order, and its end. */
  lemma StreamsCarryWhatWasRead(methods: map<string, Method>, states: seq<State>, events: seq<Event>, k: nat,
                                x: StreamId)
    requires IsRun(methods, states, events) && k < |states|
    ensures SentFor(states[k].out, x) == ReadBy(events[..k], x)
  {
    hide SentFor, ReadBy, Step, Enabled;
    RunIsTraced(methods, states, events, k);
  }

  /** A response has been sent exactly if it is due. */
  lemma ResponsesAreThoseDue(methods: map<string, Method>, states: seq<State>, events: seq<Event>, k: nat,
                             n: nat, id: nat, status: Status)
    requires IsRun(methods, states, events) && k < |states|
    ensures Response(n, id, status) in states[k].out <==> Due(methods, events[..k], n, id, status)
  {
    hide SentFor, ReadBy, Step, Enabled, Due;
    RunIsTraced(methods, states, events, k);
  }

  /** What the status of a response says about its frame, its method and its callback. */
  lemma StatusTells(methods: map<string, Method>, states: seq<State>, events: seq<Event>, k: nat,
                    n: nat, id: nat, status: Status)
    requires IsRun(methods, states, events) && k < |states| && Response(n, id, status) in states[k].out
    ensures n < |Frames(events[..k])| && Frames(events[..k])[n].msg.methodName.Some?
    ensures var f := Frames(events[..k])[n];
      var name := f.msg.methodName.value;
      && f.msg.id == Some(id)
      && (status == NotFound <==> name !in methods)
      && (status == InvalidParams <==> name in methods && !f.paramsOk)
      && (name in methods && f.paramsOk && methods[name].Sync? ==>
            (status == Success <==> f.callbackOk) && (status == Failed <==> !f.callbackOk))
      && (name in methods && f.paramsOk && !methods[name].Sync? ==>
            && (status == Success <==> FutureDone(n, true) in events[..k])
            && (status == Failed <==> FutureDone(n, false) in events[..k]))
  {
    hide SentFor, ReadBy, Step, Enabled, Frames;
    var es := events[..k];
    RunIsTraced(methods, states, events, k);
    hide IsRun;
    assert Due(methods, es, n, id, status);
    assert FutureOk(methods, es, states[k], n);
  }

  /** A future ends once. */
  lemma FutureEndsOnce(methods: map<string, Method>, states: seq<State>, events: seq<Event>, i: nat, j: nat)
    requires IsRun(methods, states, events) && i < |events| && j < |events|
    requires events[i].FutureDone? && events[j].FutureDone? && events[i].request == events[j].request
    ensures i == j
  {
    hide Step, Traced;
    if i < j {
      NotAgain(methods, states, events, i, j);
    } else if j < i {
      NotAgain(methods, states, events, j, i);
    }
  }

  lemma NotAgain(methods: map<string, Method>, states: seq<State>, events: seq<Event>, i: nat, j: nat)
    requires IsRun(methods, states, events) && i < j < |events| && events[i].FutureDone?
    ensures !(events[j].FutureDone? && events[i].request == events[j].request)
  {
    hide Step, Frames, SentFor, ReadBy;
    RunIsTraced(methods, states, events, j);
    var n, s := events[i].request, states[j];
    assert events[..j][i] == events[i];
    assert Ended(events[..j], n) && HasActed(events[..j], s, n);
    assert FutureOk(methods, events[..j], s, n);
    assert RunStep(methods, states, events, j);
  }

  /** The start of streams is sent exactly for the duplex calls, with the id of the request or 0, and its streams. */
  lemma StartsAreThoseCalledFor(methods: map<string, Method>, states: seq<State>, events: seq<Event>, k: nat,
                                n: nat, forId: nat, ids: seq<StreamId>)
    requires IsRun(methods, states, events) && k < |states|
    ensures StreamsStarted(n, forId, ids) in states[k].out <==> Announceable(methods, events[..k], n, forId, ids)
  {
    hide SentFor, ReadBy, Step, Enabled, Announceable;
    RunIsTraced(methods, states, events, k);
  }

  /** A call of ours waits exactly from when it is made until a reply comes. */
  lemma CallsWaitForReplies(methods: map<string, Method>, states: seq<State>, events: seq<Event>, k: nat, id: nat)
    requires IsRun(methods, states, events) && k < |states|
    ensures id in states[k].calls <==> Called(events[..k], id)
  {
    hide SentFor, ReadBy, Step, Enabled, Called;
    RunIsTraced(methods, states, events, k);
  }

  /** The connection panics exactly on a frame that has neither a method nor an id, and does nothing after that. */
  lemma PanicsExactly(methods: map<string, Method>, states: seq<State>, events: seq<Event>, k: nat)
    requires IsRun(methods, states, events) && k < |states|
    ensures states[k].panicked <==>
              k > 0 && events[k - 1].Dispatched? && events[k - 1].msg.methodName.None? && events[k - 1].msg.id.None?
    ensures states[k].panicked ==> k == |events|
  {
    hide NewStreams, Fresh;
    if k > 0 {
      assert RunStep(methods, states, events, k - 1);
    }
    if k < |events| {
      assert RunStep(methods, states, events, k);
    }
  }
}
