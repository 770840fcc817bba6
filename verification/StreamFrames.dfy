/**
 Dispatch and streams together: frames that carry stream data, the registration of the streams of a
 call, and the tasks that pass data on, in any interleaving.
 */
module StreamFrames {
  import opened Common
  import D = Dispatch
  import S = Streams

  type StreamId = nat

  const STREAM_DATA := "stream_data"
  const STREAM_ENDED := "stream_ended"

  /** What a frame says about streams. */
  datatype Payload = Data(stream: StreamId, segment: seq<int>) | Ended(stream: StreamId) | Other

  /** A connection: both machines, what each frame said, and which requests to end have been carried out. */
  datatype Link = Link(d: D.State, s: S.State, payloads: seq<Payload>, removed: set<nat>)

  const START := Link(D.INITIAL, S.INITIAL, [], {})

  /** The two methods that every dispatcher has: data is handled on the spot, an end in a future. */
  ghost predicate HasStreamMethods(methods: map<string, D.Method>) {
    && STREAM_DATA in methods && methods[STREAM_DATA] == D.Sync
    && STREAM_ENDED in methods && methods[STREAM_ENDED] == D.Async
  }

  datatype Event =
    | Frame(msg: D.Incoming, paramsOk: bool, callbackOk: bool, ids: nat -> StreamId, payload: Payload)
    | Register
    | CarryOut(request: nat)
    | Beside(other: D.Event)
    | Pass(inner: S.Event)

  ghost predicate PayloadFits(msg: D.Incoming, paramsOk: bool, payload: Payload) {
    && (payload.Data? <==> msg.methodName == Some(STREAM_DATA) && paramsOk)
    && (payload.Ended? <==> msg.methodName == Some(STREAM_ENDED) && paramsOk)
  }

  /** Futures, stream readers and calls, which do not touch the map of streams. */
  predicate IsBeside(e: D.Event) {
    e.StartFuture? || e.FutureDone? || e.Read? || e.ReadEnd? || e.Call?
  }

  ghost predicate Enabled(c: Link, e: Event) {
    match e
    case Frame(msg, paramsOk, callbackOk, ids, payload) =>
      D.Enabled(c.d, D.Dispatched(msg, paramsOk, callbackOk, ids)) && PayloadFits(msg, paramsOk, payload)
    case Register => D.Enabled(c.d, D.InsertStream)
    case CarryOut(n) => n in c.d.futures && n < |c.payloads| && c.payloads[n].Ended? && n !in c.removed
    case Beside(f) =>
      D.Enabled(c.d, f) && IsBeside(f)
      && (f.FutureDone? && f.request < |c.payloads| && c.payloads[f.request].Ended? ==> f.request in c.removed)
    case Pass(f) => S.Enabled(c.s, f) && (f.Lock? || f.WriteItem? || f.Shutdown?)
  }

  function NextStream(d: D.State): StreamId
    requires D.Enabled(d, D.InsertStream)
  {
    d.streamsOf[d.starting.value.request][d.starting.value.inserted]
  }

  ghost function Step(methods: map<string, D.Method>, c: Link, e: Event): Link
    requires Enabled(c, e) && S.Wired(c.s)
  {
    match e
    case Frame(msg, paramsOk, callbackOk, ids, payload) =>
      Link(D.Step(methods, c.d, D.Dispatched(msg, paramsOk, callbackOk, ids)),
           if payload.Data? then S.WriteStep(c.s, payload.stream, payload.segment) else c.s,
           c.payloads + [payload], c.removed)
    case Register =>
      c.(d := D.Step(methods, c.d, D.InsertStream), s := S.InsertStep(c.s, NextStream(c.d)))
    case CarryOut(n) =>
      c.(s := S.RemoveStep(c.s, c.payloads[n].stream), removed := c.removed + {n})
    case Beside(f) => c.(d := D.Step(methods, c.d, f))
    case Pass(f) => c.(s := S.Step(c.s, f))
  }

  // ----- What frames say about one stream

  /** The segments sent for stream `x`, in frame order. */
  function Segments(q: seq<Payload>, x: StreamId): seq<seq<int>> {
    if q == [] then []
    else
      var last := q[|q| - 1];
      Segments(q[..|q| - 1], x) + if last.Data? && last.stream == x then [last.segment] else []
  }

  /** The first frame that asks to end stream `x`, or the number of frames if there is none. */
  function FirstEnd(q: seq<Payload>, x: StreamId): (e: nat)
    ensures e <= |q| && Ended(x) !in q[..e] && (e < |q| ==> q[e] == Ended(x))
  {
    if q == [] then 0
    else
      var e := FirstEnd(q[..|q| - 1], x);
      assert q == q[..|q| - 1] + [q[|q| - 1]];
      if e < |q| - 1 then
        assert q[..|q| - 1][..e] == q[..e]; e
      else if q[|q| - 1] == Ended(x) then
        assert q[..|q| - 1][..e] == q[..e]; e
      else
        assert q[..|q|] == q; |q|
  }

  lemma SegmentsAfter(q: seq<Payload>, p: Payload, x: StreamId)
    ensures Segments(q + [p], x) == Segments(q, x) + if p.Data? && p.stream == x then [p.segment] else []
  {
    assert (q + [p])[..|q + [p]| - 1] == q;
  }

  lemma {:induction false} SegmentsOfPrefix(q: seq<Payload>, k: nat, x: StreamId)
    requires k <= |q|
    ensures Segments(q[..k], x) <= Segments(q, x)
    decreases |q|
  {
    if k < |q| {
      SegmentsOfPrefix(q[..|q| - 1], k, x);
      assert q[..|q| - 1][..k] == q[..k];
    } else {
      assert q[..k] == q;
    }
  }

  lemma EndStays(q: seq<Payload>, p: Payload, x: StreamId)
    ensures FirstEnd(q, x) < |q| ==> FirstEnd(q + [p], x) == FirstEnd(q, x)
    ensures Ended(x) in q <==> FirstEnd(q, x) < |q|
  {
    assert (q + [p])[..|q + [p]| - 1] == q;
    assert q[..|q|] == q;
  }

  /**
   What was accepted of the data for a stream that was started by frame `n`: nothing that was not
   sent since, in the order in which it was sent, and at least all that came before an end was asked
   for. As long as the stream is in the map, all that was sent.
   */
  ghost predicate Carries(q: seq<Payload>, n: nat, x: StreamId, accepted: seq<seq<int>>, present: bool) {
    && n < |q|
    && accepted <= Segments(q[n + 1..], x)
    && (n < FirstEnd(q, x) ==> Segments(q[n + 1..FirstEnd(q, x)], x) <= accepted)
    && (present ==> accepted == Segments(q[n + 1..], x))
  }

  /** Everything sent so far has been accepted. */
  lemma CarriesAll(q: seq<Payload>, n: nat, x: StreamId, present: bool)
    requires n < |q|
    ensures Carries(q, n, x, Segments(q[n + 1..], x), present)
  {
    var e := FirstEnd(q, x);
    if n < e {
      SegmentsOfPrefix(q[n + 1..], e - (n + 1), x);
      assert q[n + 1..][..e - (n + 1)] == q[n + 1..e];
    }
  }

  /** A frame after which the stream is in the same state; if it is no longer there, an end was asked for. */
  lemma CarriesOn(q: seq<Payload>, p: Payload, n: nat, x: StreamId, accepted: seq<seq<int>>, present: bool)
    requires Carries(q, n, x, accepted, present) && (present || Ended(x) in q)
    ensures var now := if present && p.Data? && p.stream == x then accepted + [p.segment] else accepted;
            Carries(q + [p], n, x, now, present)
  {
    var t := q + [p];
    assert t[n + 1..] == q[n + 1..] + [p];
    SegmentsAfter(q[n + 1..], p, x);
    if present {
      CarriesAll(t, n, x, present);
    } else {
      EndStays(q, p, x);
      var e := FirstEnd(q, x);
      assert n < e ==> t[n + 1..e] == q[n + 1..e];
    }
  }

  // ----- Invariant

  ghost predicate Owns(d: D.State, n: nat, x: StreamId) {
    n in d.streamsOf && x in d.streamsOf[n]
  }

  ghost predicate CarriesAt(c: Link, n: nat, x: StreamId) {
    Carries(c.payloads, n, x, S.Accepted(c.s, x), x in c.s.recs)
  }

  ghost predicate Coupled(c: Link) {
    && |c.payloads| == |c.d.received| && c.s.sinks.Keys == c.d.readers.Keys
    && (c.d.starting.Some? ==> c.d.starting.value.request + 1 == |c.d.received|)
    && (forall x | x in c.s.endRequested :: Ended(x) in c.payloads)
  }

  ghost predicate Inv(c: Link) {
    && D.Inv(c.d) && S.Inv(c.s) && Coupled(c)
    && (forall n, x {:trigger CarriesAt(c, n, x)} | Owns(c.d, n, x) && x in c.s.sinks :: CarriesAt(c, n, x))
  }

  lemma StartsWell()
    ensures Inv(START)
  {
    D.InitialState();
  }

  /** A stream that has left the map was asked to end. */
  lemma GoneWasEnded(c: Link, x: StreamId)
    requires S.Inv(c.s) && Coupled(c) && x in c.s.sinks && x !in c.s.recs
    ensures Ended(x) in c.payloads
  {
    assert S.StreamOk(c.s, x);
  }

  /** Streams of a call that is being started are not in the map yet. */
  lemma NotYetThere(d: D.State, n: nat, x: StreamId)
    requires D.Inv(d) && Owns(d, n, x) && d.starting == Some(D.Starting(n, 0))
    ensures x !in d.readers
  {
    assert D.CallOk(d, n);
    var i :| 0 <= i < |d.streamsOf[n]| && d.streamsOf[n][i] == x;
    assert D.StreamOk(d, n, i);
  }

  lemma WriteLeaves(s: S.State, x: StreamId, chunk: seq<int>)
    requires S.Inv(s)
    ensures var t := S.WriteStep(s, x, chunk);
            && t.sinks == s.sinks && t.recs.Keys == s.recs.Keys && t.endRequested == s.endRequested
            && (forall y :: S.Accepted(t, y) == if y == x && x in s.recs then S.Accepted(s, y) + [chunk]
                                                else S.Accepted(s, y))
  {
    hide S.StreamOk;
  }

  /** What dispatching a frame does to the streams known to the dispatcher. */
  lemma FrameLeaves(methods: map<string, D.Method>, d: D.State, e: D.Event, n: nat, x: StreamId)
    requires D.Inv(d) && e.Dispatched? && D.Enabled(d, e)
    ensures var t := D.Step(methods, d, e);
            && t.readers == d.readers && |t.received| == |d.received| + 1
            && (Owns(t, n, x) && !Owns(d, n, x) ==> t.starting == Some(D.Starting(n, 0)))
            && (t.starting.Some? ==> t.starting.value.request + 1 == |t.received|)
  {
    hide D.Inv, D.Fresh;
  }

  ghost predicate SameStream(c: Link, t: Link, p: Payload, x: StreamId) {
    && (x in t.s.recs <==> x in c.s.recs)
    && S.Accepted(t.s, x) == if x in c.s.recs && p.Data? && p.stream == x then S.Accepted(c.s, x) + [p.segment]
                             else S.Accepted(c.s, x)
  }

  lemma FrameSameStream(methods: map<string, D.Method>, c: Link, e: Event, x: StreamId)
    requires S.Inv(c.s) && e.Frame? && Enabled(c, e)
    ensures SameStream(c, Step(methods, c, e), e.payload, x)
    ensures Step(methods, c, e).s.sinks == c.s.sinks && Step(methods, c, e).s.endRequested == c.s.endRequested
  {
    if e.payload.Data? {
      WriteLeaves(c.s, e.payload.stream, e.payload.segment);
    }
    hide S.WriteStep, S.Inv, D.Step, S.Accepted;
  }

  lemma FrameKeeps(methods: map<string, D.Method>, c: Link, e: Event)
    requires Inv(c) && e.Frame? && Enabled(c, e)
    ensures Inv(Step(methods, c, e))
  {
    assert S.Wired(c.s);
    hide D.Inv, S.Inv, Carries, D.Step, S.WriteStep, S.Accepted, SameStream, D.Enabled;
    var t := Step(methods, c, e);
    var f := D.Dispatched(e.msg, e.paramsOk, e.callbackOk, e.ids);
    D.StepKeepsInv(methods, c.d, f);
    if e.payload.Data? {
      S.StepKeepsInv(c.s, S.Write(e.payload.stream, e.payload.segment));
    }
    FrameLeaves(methods, c.d, f, 0, 0);
    FrameSameStream(methods, c, e, 0);
    forall n, x | Owns(t.d, n, x) && x in t.s.sinks ensures CarriesAt(t, n, x) {
      FrameLeaves(methods, c.d, f, n, x);
      if Owns(c.d, n, x) {
        FrameKeepsCarrying(methods, c, e, n, x);
      } else {
        NotYetThere(t.d, n, x);
      }
    }
  }

  lemma FrameKeepsCarrying(methods: map<string, D.Method>, c: Link, e: Event, n: nat, x: StreamId)
    requires S.Inv(c.s) && Coupled(c) && e.Frame? && Enabled(c, e) && x in c.s.sinks && CarriesAt(c, n, x)
    ensures CarriesAt(Step(methods, c, e), n, x)
  {
    hide Carries, D.Step, S.WriteStep, S.Accepted;
    FrameSameStream(methods, c, e, x);
    if x !in c.s.recs {
      GoneWasEnded(c, x);
    }
    CarriesOn(c.payloads, e.payload, n, x, S.Accepted(c.s, x), x in c.s.recs);
  }

  lemma NextStreamIsNew(methods: map<string, D.Method>, d: D.State)
    requires D.Inv(d) && D.Enabled(d, D.InsertStream)
    ensures NextStream(d) !in d.readers && Owns(d, d.starting.value.request, NextStream(d))
    ensures forall n | Owns(d, n, NextStream(d)) :: n == d.starting.value.request
    ensures var t := D.Step(methods, d, D.InsertStream);
            && t.readers.Keys == d.readers.Keys + {NextStream(d)} && t.received == d.received
            && t.streamsOf == d.streamsOf && t.starting.Some? && t.starting.value.request == d.starting.value.request
  {
    var n, i := d.starting.value.request, d.starting.value.inserted;
    assert D.CallOk(d, n);
    assert D.StreamOk(d, n, i);
  }

  lemma RegisterKeeps(methods: map<string, D.Method>, c: Link)
    requires Inv(c) && Enabled(c, Register)
    ensures Inv(Step(methods, c, Register))
  {
    assert S.Wired(c.s);
    hide D.Inv, S.Inv, Carries, D.Step, D.Enabled;
    var t, x := Step(methods, c, Register), NextStream(c.d);
    NextStreamIsNew(methods, c.d);
    D.StepKeepsInv(methods, c.d, D.InsertStream);
    S.StepKeepsInv(c.s, S.Insert(x));
    forall n, y | Owns(t.d, n, y) && y in t.s.sinks ensures CarriesAt(t, n, y) {
      if y == x {
        assert Owns(c.d, n, x);
        CarriesAll(t.payloads, n, x, true);
        assert t.payloads[n + 1..] == [];
      } else {
        assert CarriesAt(c, n, y);
      }
    }
  }

  /** Steps that accept nothing and put nothing into the map. */
  lemma StillCarries(c: Link, t: Link)
    requires Inv(c) && D.Inv(t.d) && S.Inv(t.s) && Coupled(t)
    requires t.payloads == c.payloads && t.d.streamsOf == c.d.streamsOf && t.s.sinks.Keys == c.s.sinks.Keys
    requires t.s.accepted == c.s.accepted && t.s.recs.Keys <= c.s.recs.Keys
    ensures Inv(t)
  {
    forall n, x | Owns(t.d, n, x) && x in t.s.sinks ensures CarriesAt(t, n, x) {
      assert CarriesAt(c, n, x);
    }
  }

  lemma RemoveLeaves(s: S.State, x: StreamId)
    requires S.Inv(s)
    ensures var t := S.RemoveStep(s, x);
            && t.accepted == s.accepted && t.recs.Keys <= s.recs.Keys && t.sinks == s.sinks
            && t.endRequested <= s.endRequested + {x}
  {
    hide S.StreamOk;
  }

  lemma PassLeaves(s: S.State, e: S.Event)
    requires S.Inv(s) && S.Enabled(s, e) && (e.Lock? || e.WriteItem? || e.Shutdown?)
    ensures var t := S.Step(s, e);
            && t.accepted == s.accepted && t.recs.Keys <= s.recs.Keys && t.sinks.Keys == s.sinks.Keys
            && t.endRequested == s.endRequested
  {
    hide S.StreamOk;
  }

  lemma BesideLeaves(methods: map<string, D.Method>, d: D.State, e: D.Event)
    requires D.Enabled(d, e) && IsBeside(e)
    ensures var t := D.Step(methods, d, e);
            && t.received == d.received && t.readers.Keys == d.readers.Keys && t.streamsOf == d.streamsOf
            && (t.starting == d.starting || t.starting.None?)
  {
  }

  /** Every step keeps the invariant. */
  lemma StepKeepsInv(methods: map<string, D.Method>, c: Link, e: Event)
    requires Inv(c) && Enabled(c, e)
    ensures Inv(Step(methods, c, e))
  {
    assert S.Wired(c.s);
    hide D.Inv, S.Inv, D.Step, S.Step, S.RemoveStep, D.Enabled, CarriesAt;
    match e
    case Frame(_, _, _, _, _) => FrameKeeps(methods, c, e);
    case Register => RegisterKeeps(methods, c);
    case CarryOut(n) =>
      var x := c.payloads[n].stream;
      RemoveLeaves(c.s, x);
      S.StepKeepsInv(c.s, S.Remove(x));
      RemoveIsStep(c.s, x);
      StillCarries(c, Step(methods, c, e));
    case Beside(f) =>
      BesideLeaves(methods, c.d, f);
      D.StepKeepsInv(methods, c.d, f);
      StillCarries(c, Step(methods, c, e));
    case Pass(f) =>
      PassLeaves(c.s, f);
      S.StepKeepsInv(c.s, f);
      StillCarries(c, Step(methods, c, e));
  }

  lemma RemoveIsStep(s: S.State, x: StreamId)
    requires S.Wired(s)
    ensures S.RemoveStep(s, x) == S.Step(s, S.Remove(x))
  {
  }

  // ----- Requests to end

  /** A request to end is outstanding or carried out, and then the stream, if it was started before, ends. */
  ghost predicate EndKept(c: Link, n: nat)
    requires n < |c.payloads|
  {
    c.payloads[n].Ended? ==>
      && (n in c.removed || n in c.d.futures)
      && (forall m: nat | n in c.removed && m < n && Owns(c.d, m, c.payloads[n].stream) ::
            c.payloads[n].stream in c.s.endRequested)
  }

  ghost predicate EndsOk(c: Link) {
    && (forall n | n in c.removed :: n < |c.payloads|)
    && (forall n {:trigger EndKept(c, n)} | 0 <= n < |c.payloads| :: EndKept(c, n))
  }

  /** Streams started before the latest frame are in the map or have been. */
  lemma StartedBefore(c: Link, m: nat, n: nat, x: StreamId)
    requires Inv(c) && m < n < |c.payloads| && Owns(c.d, m, x)
    ensures x in c.s.sinks
  {
    assert D.CallOk(c.d, m);
    var i :| 0 <= i < |c.d.streamsOf[m]| && c.d.streamsOf[m][i] == x;
    assert D.StreamOk(c.d, m, i);
  }

  lemma RemoveRequestsEnd(s: S.State, x: StreamId)
    requires S.Inv(s) && x in s.sinks
    ensures x in S.RemoveStep(s, x).endRequested && s.endRequested <= S.RemoveStep(s, x).endRequested
  {
    assert S.StreamOk(s, x);
  }

  lemma CarryOutKeepsEnds(methods: map<string, D.Method>, c: Link, k: nat)
    requires Inv(c) && EndsOk(c) && Enabled(c, CarryOut(k))
    ensures EndsOk(Step(methods, c, CarryOut(k)))
  {
    assert S.Wired(c.s);
    hide S.RemoveStep, S.Inv, D.Inv, CarriesAt;
    var t, x := Step(methods, c, CarryOut(k)), c.payloads[k].stream;
    if x in c.s.sinks {
      RemoveRequestsEnd(c.s, x);
    }
    RemoveKeepsRequests(c.s, x);
    forall n | 0 <= n < |t.payloads| ensures EndKept(t, n) {
      assert EndKept(c, n);
      forall m: nat | t.payloads[n].Ended? && n == k && m < n && Owns(t.d, m, x) ensures x in t.s.endRequested {
        StartedBefore(c, m, n, x);
      }
    }
  }

  lemma RemoveKeepsRequests(s: S.State, x: StreamId)
    ensures s.endRequested <= S.RemoveStep(s, x).endRequested
  {
  }

  /** What a frame leaves of earlier requests, and what becomes of a new one. */
  lemma FrameFutures(methods: map<string, D.Method>, c: Link, e: Event, m: nat, x: StreamId)
    requires HasStreamMethods(methods) && Inv(c) && e.Frame? && Enabled(c, e)
    ensures var t := Step(methods, c, e);
            && c.d.futures.Keys <= t.d.futures.Keys
            && (e.payload.Ended? ==> |c.payloads| in t.d.futures)
            && (m < |c.payloads| && Owns(t.d, m, x) ==> Owns(c.d, m, x))
            && t.s.endRequested == c.s.endRequested && |c.payloads| == |c.d.received|
  {
    assert S.Wired(c.s);
    FrameSameStream(methods, c, e, x);
    FutureOfFrame(methods, c.d, D.Dispatched(e.msg, e.paramsOk, e.callbackOk, e.ids), m, x);
    hide S.Inv, D.Inv, S.WriteStep, CarriesAt, D.Step, S.Accepted, D.Enabled;
  }

  lemma FutureOfFrame(methods: map<string, D.Method>, d: D.State, e: D.Event, m: nat, x: StreamId)
    requires e.Dispatched? && D.Enabled(d, e)
    ensures var t := D.Step(methods, d, e);
            && d.futures.Keys <= t.futures.Keys
            && (HasStreamMethods(methods) && e.msg.methodName == Some(STREAM_ENDED) && e.paramsOk ==>
                  |d.received| in t.futures)
            && (m < |d.received| && Owns(t, m, x) ==> Owns(d, m, x))
  {
    hide D.Fresh;
  }

  lemma FrameKeepsEnds(methods: map<string, D.Method>, c: Link, e: Event)
    requires HasStreamMethods(methods) && Inv(c) && EndsOk(c) && e.Frame? && Enabled(c, e)
    ensures EndsOk(Step(methods, c, e))
  {
    assert S.Wired(c.s);
    hide S.Inv, D.Inv, D.Step, S.WriteStep, CarriesAt, D.Enabled, HasStreamMethods;
    var t := Step(methods, c, e);
    forall n | 0 <= n < |t.payloads| ensures EndKept(t, n) {
      FrameFutures(methods, c, e, 0, 0);
      if n < |c.payloads| {
        assert EndKept(c, n);
        forall m: nat, x | m < n && Owns(t.d, m, x) ensures Owns(c.d, m, x) {
          FrameFutures(methods, c, e, m, x);
        }
      }
    }
  }

  lemma BesideFutures(methods: map<string, D.Method>, d: D.State, e: D.Event)
    requires D.Enabled(d, e) && IsBeside(e)
    ensures d.futures.Keys - (if e.FutureDone? then {e.request} else {}) <= D.Step(methods, d, e).futures.Keys
  {
  }

  lemma StepKeepsEnds(methods: map<string, D.Method>, c: Link, e: Event)
    requires HasStreamMethods(methods) && Inv(c) && EndsOk(c) && Enabled(c, e)
    ensures EndsOk(Step(methods, c, e))
  {
    assert S.Wired(c.s);
    hide D.Inv, S.Inv, D.Step, S.Step, S.RemoveStep, D.Enabled, CarriesAt;
    var t := Step(methods, c, e);
    match e
    case Frame(_, _, _, _, _) => FrameKeepsEnds(methods, c, e);
    case CarryOut(k) => CarryOutKeepsEnds(methods, c, k);
    case Register =>
      NextStreamIsNew(methods, c.d);
      RegisterFutures(methods, c.d);
      EndsUnchanged(c, t);
    case Beside(f) =>
      BesideLeaves(methods, c.d, f);
      BesideFutures(methods, c.d, f);
      EndsUnchanged(c, t);
    case Pass(f) =>
      PassLeaves(c.s, f);
      EndsUnchanged(c, t);
  }

  lemma RegisterFutures(methods: map<string, D.Method>, d: D.State)
    requires D.Enabled(d, D.InsertStream)
    ensures D.Step(methods, d, D.InsertStream).futures == d.futures
  {
  }

  lemma EndsUnchanged(c: Link, t: Link)
    requires EndsOk(c) && t.payloads == c.payloads && t.removed == c.removed && t.d.streamsOf == c.d.streamsOf
    requires t.s.endRequested == c.s.endRequested
    requires forall n | n in c.d.futures && n < |c.payloads| && c.payloads[n].Ended? ::
               n in t.d.futures || n in c.removed
    ensures EndsOk(t)
  {
    assert forall m: nat, x: StreamId :: Owns(t.d, m, x) ==> Owns(c.d, m, x);
    forall n | 0 <= n < |t.payloads| ensures EndKept(t, n) {
      assert EndKept(c, n);
    }
  }

  // ----- Runs

  ghost predicate RunStep(methods: map<string, D.Method>, states: seq<Link>, events: seq<Event>, i: nat)
    requires i < |events| && |states| == |events| + 1
  {
    S.Wired(states[i].s) && Enabled(states[i], events[i]) && states[i + 1] == Step(methods, states[i], events[i])
  }

  ghost predicate IsRun(methods: map<string, D.Method>, states: seq<Link>, events: seq<Event>) {
    && HasStreamMethods(methods) && |states| == |events| + 1 && states[0] == START
    && forall i | 0 <= i < |events| :: RunStep(methods, states, events, i)
  }

  lemma {:induction false} RunKeepsInv(methods: map<string, D.Method>, states: seq<Link>, events: seq<Event>, k: nat)
    requires IsRun(methods, states, events) && k < |states|
    ensures Inv(states[k]) && EndsOk(states[k])
    decreases k
  {
    hide Inv, Step, Enabled, HasStreamMethods;
    if k == 0 {
      StartsWell();
    } else {
      RunKeepsInv(methods, states, events, k - 1);
      assert RunStep(methods, states, events, k - 1);
      StepKeepsInv(methods, states[k - 1], events[k - 1]);
      StepKeepsEnds(methods, states[k - 1], events[k - 1]);
    }
  }

  /** What the frames so far said about streams. */
  ghost function Said(es: seq<Event>): seq<Payload> {
    if es == [] then []
    else Said(es[..|es| - 1]) + if es[|es| - 1].Frame? then [es[|es| - 1].payload] else []
  }

  /** The connection knows what each frame said, and which requests to end have been carried out. */
  lemma {:induction false} FramesAreRemembered(methods: map<string, D.Method>, states: seq<Link>, events: seq<Event>,
                                               k: nat)
    requires IsRun(methods, states, events) && k < |states|
    ensures states[k].payloads == Said(events[..k])
    ensures forall n: nat :: n in states[k].removed <==> CarryOut(n) in events[..k]
    decreases k
  {
    hide D.Step, D.Enabled, S.WriteStep, S.InsertStep, S.RemoveStep, S.Step, S.Wired, HasStreamMethods;
    if k > 0 {
      FramesAreRemembered(methods, states, events, k - 1);
      assert RunStep(methods, states, events, k - 1);
      assert events[..k] == events[..k - 1] + [events[k - 1]];
      assert events[..k][..k - 1] == events[..k - 1];
    }
  }

  ghost predicate NoFailure(e: Event) {
    e.Pass? ==> S.NoFailure(e.inner)
  }

  lemma StepDelivers(methods: map<string, D.Method>, c: Link, e: Event, x: StreamId)
    requires Inv(c) && Enabled(c, e) && NoFailure(e) && x in Step(methods, c, e).s.sinks
    requires x in c.s.sinks ==> S.AllDelivered(c.s.sinks[x].log)
    ensures S.AllDelivered(Step(methods, c, e).s.sinks[x].log)
  {
    assert S.Wired(c.s);
    hide D.Inv, D.Step, CarriesAt, D.Enabled, S.Inv;
    match e
    case Frame(_, _, _, _, p) =>
      if p.Data? {
        WriteLeaves(c.s, p.stream, p.segment);
      }
    case Register =>
    case CarryOut(n) => RemoveLeaves(c.s, c.payloads[n].stream);
    case Beside(_) =>
    case Pass(f) => S.StepDelivers(c.s, f, x);
  }

  lemma {:induction false} RunDelivers(methods: map<string, D.Method>, states: seq<Link>, events: seq<Event>, k: nat,
                                       x: StreamId)
    requires IsRun(methods, states, events) && k < |states| && x in states[k].s.sinks
    requires forall i | 0 <= i < k :: NoFailure(events[i])
    ensures S.AllDelivered(states[k].s.sinks[x].log)
    decreases k
  {
    hide Inv, Step, Enabled, S.AllDelivered;
    if k > 0 {
      assert RunStep(methods, states, events, k - 1);
      RunKeepsInv(methods, states, events, k - 1);
      if x in states[k - 1].s.sinks {
        RunDelivers(methods, states, events, k - 1, x);
      }
      StepDelivers(methods, states[k - 1], events[k - 1], x);
    }
  }

  // ----- What the client may rely on

  /** Data for a stream that was announced is accepted, unless an end was asked for before. */
  lemma DataIsAccepted(methods: map<string, D.Method>, c: Link, e: Event, n: nat)
    requires Inv(c) && e.Frame? && Enabled(c, e) && e.payload.Data? && Owns(c.d, n, e.payload.stream)
    requires Ended(e.payload.stream) !in c.payloads
    ensures var x := e.payload.stream;
            S.Accepted(Step(methods, c, e).s, x) == S.Accepted(c.s, x) + [e.payload.segment]
  {
    hide CarriesAt, D.Step, S.WriteStep, S.Accepted;
    var x := e.payload.stream;
    D.StreamsAreRegistered(c.d, n, x);
    if x !in c.s.recs {
      GoneWasEnded(c, x);
    }
    WriteLeaves(c.s, x, e.payload.segment);
  }

  lemma {:induction false} FlattenOfPrefix(a: seq<seq<int>>, b: seq<seq<int>>)
    requires a <= b
    ensures S.Flatten(a) <= S.Flatten(b)
  {
    assert b == a + b[|a|..];
    S.FlattenConcat(a, b[|a|..]);
  }

  /** The bytes on their way through stream `x`: received, in hand, and queued. */
  ghost function Bytes(s: S.State, x: StreamId): seq<int>
    requires x in s.sinks
  {
    S.Received(s.sinks[x].log) + S.Flatten(S.InFlight(s, x)) + S.Flatten(S.Queued(s, x))
  }

  /** The data of a stream is in line with the frames, and none of it was lost. */
  ghost predicate WellCarried(c: Link, n: nat, x: StreamId) {
    S.Inv(c.s) && x in c.s.sinks && CarriesAt(c, n, x) && S.AllDelivered(c.s.sinks[x].log)
  }

  lemma RunCarries(methods: map<string, D.Method>, states: seq<Link>, events: seq<Event>, k: nat, n: nat, x: StreamId)
    requires IsRun(methods, states, events) && k < |states|
    requires Owns(states[k].d, n, x) && x in states[k].d.readers
    requires forall i | 0 <= i < k :: NoFailure(events[i])
    ensures WellCarried(states[k], n, x)
  {
    hide S.AllDelivered, CarriesAt, Owns, S.Inv, D.Inv;
    RunKeepsInv(methods, states, events, k);
    RunDelivers(methods, states, events, k, x);
    hide IsRun;
    assert Coupled(states[k]);
  }

  lemma CarriedBytes(c: Link, n: nat, x: StreamId)
    requires WellCarried(c, n, x)
    ensures var accepted := S.Flatten(S.Accepted(c.s, x));
      && Bytes(c.s, x) == accepted
      && (c.s.sinks[x].shutdowns > 0 ==> S.Received(c.s.sinks[x].log) == accepted)
  {
    S.DeliveredInOrder(c.s, x);
    AcceptedBytes(c.s, x);
    hide S.Inv, S.Flatten, S.Received, S.InFlight, S.Queued, S.AllDelivered;
    assert S.InOrder(c.s, x) && x in c.s.accepted;
  }

  /**
   At every moment of every run without failed writes, for a stream that frame `n` started: the bytes
   received by its callback, in hand and queued are, in frame order, those of the data frames since,
   all of them if no frame asked for an end, else at least those before the first that did. Once the
   stream is shut down the callback has received every byte that was accepted.
   */
  lemma FramesReachCallback(methods: map<string, D.Method>, states: seq<Link>, events: seq<Event>, k: nat, n: nat,
                            x: StreamId)
    requires IsRun(methods, states, events) && k < |states|
    requires Owns(states[k].d, n, x) && x in states[k].d.readers
    requires forall i | 0 <= i < k :: NoFailure(events[i])
    ensures var c := states[k];
            var e := FirstEnd(c.payloads, x);
            && x in c.s.sinks && n < |c.payloads|
            && Bytes(c.s, x) <= S.Flatten(Segments(c.payloads[n + 1..], x))
            && (n < e ==> S.Flatten(Segments(c.payloads[n + 1..e], x)) <= Bytes(c.s, x))
            && (e == |c.payloads| ==> Bytes(c.s, x) == S.Flatten(Segments(c.payloads[n + 1..], x)))
            && (c.s.sinks[x].shutdowns > 0 ==> S.Received(c.s.sinks[x].log) == Bytes(c.s, x))
  {
    hide S.AllDelivered, S.Flatten, Segments, S.Received, S.Accepted, Bytes, S.Inv, FirstEnd;
    var c := states[k];
    RunCarries(methods, states, events, k, n, x);
    hide IsRun;
    CarriedBytes(c, n, x);
    var accepted := S.Accepted(c.s, x);
    FlattenOfPrefix(accepted, Segments(c.payloads[n + 1..], x));
    var e := FirstEnd(c.payloads, x);
    if n < e {
      FlattenOfPrefix(Segments(c.payloads[n + 1..e], x), accepted);
      assert e == |c.payloads| ==> c.payloads[n + 1..e] == c.payloads[n + 1..];
    }
  }

  lemma AcceptedBytes(s: S.State, x: StreamId)
    requires S.Inv(s) && x in s.sinks && S.InOrder(s, x)
    ensures Bytes(s, x) == S.Flatten(S.Accepted(s, x))
  {
  }

  /** Once a request to end a stream has been answered, the stream ends: it accepts no data when idle. */
  lemma EndIsHonoured(methods: map<string, D.Method>, states: seq<Link>, events: seq<Event>, k: nat, n: nat, m: nat)
    requires IsRun(methods, states, events) && k < |states|
    requires m < n < |states[k].payloads| && states[k].payloads[n].Ended? && n !in states[k].d.futures
    requires Owns(states[k].d, m, states[k].payloads[n].stream)
    ensures var s, x := states[k].s, states[k].payloads[n].stream;
            && x in s.endRequested
            && (x in s.recs ==> s.recs[x].ended && !s.recs[x].write)
  {
    hide IsRun, D.Inv, CarriesAt;
    RunKeepsInv(methods, states, events, k);
    var c := states[k];
    assert EndKept(c, n);
    assert S.StreamOk(c.s, c.payloads[n].stream);
  }
}
