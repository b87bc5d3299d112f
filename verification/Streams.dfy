/** Streams of src/network/StreamManager.ts: the per-peer index, the rate window and the retry counter. */
module Streams {
  type PeerId = string
  type StreamId = nat  // the counter that ends every stream id

  datatype Config = Config(maxConcurrentStreams: nat, flowControlWindow: nat, maxBytesPerSecond: nat, maxRetries: nat)

  datatype Status = Active | Closing | Closed | Error | Cancelled

  /** A send that has passed the checks, with the number of the attempt it is at. */
  datatype Send = Send(size: nat, attempt: nat)

  /** `sending` holds the sends being attempted; more than one only if sends overlap. */
  datatype Stream = Stream(
    peer: PeerId,
    createdAt: int,
    bytesSent: nat,
    bytesReceived: nat,
    status: Status,
    windowBytesSent: nat,
    lastRateLimitReset: int,
    cancelled: bool,
    retryCount: nat,
    sending: seq<Send>)

  datatype State = State(streams: map<StreamId, Stream>, peerStreams: map<PeerId, set<StreamId>>, counter: nat)

  datatype Event =
    | Open(peer: PeerId, now: int)
    | OpenFailed(id: StreamId)
    | CloseStart(id: StreamId)
    | CloseDone(id: StreamId)
    | Cancel(id: StreamId)
    | SendStart(id: StreamId, size: nat, now: int)
    | AttemptFailed(id: StreamId, k: nat)  // the attempt of the k-th send fails
    | SendDone(id: StreamId, k: nat)       // the attempt of the k-th send succeeds
    | Receive(id: StreamId, size: nat)
    | Retry(id: StreamId)

  datatype Outcome =
    | Done | NotFound | LimitReached | NotActive | WindowExceeded | RateExceeded | NotInError | RetriesExceeded

  const Init: State := State(map[], map[], 0)

  // ---------- Operations ----------

  function StreamsOf(s: State, p: PeerId): set<StreamId> { if p in s.peerStreams then s.peerStreams[p] else {} }

  function Cleanup(s: State, id: StreamId): State {
    if id !in s.streams then s
    else
      var p := s.streams[id].peer;
      var left := StreamsOf(s, p) - {id};
      State(s.streams - {id},
            if p !in s.peerStreams then s.peerStreams
            else if left == {} then s.peerStreams - {p}
            else s.peerStreams[p := left],
            s.counter)
  }

  function WithReset(t: Stream, now: int): Stream { t.(windowBytesSent := 0, lastRateLimitReset := now) }

  /** The checks of `sendData`, with the window as they leave it. */
  function CheckSend(c: Config, t: Stream, size: nat, now: int): (Stream, Outcome) {
    if t.status != Active || t.cancelled then (t, NotActive)
    else if t.windowBytesSent + size > c.flowControlWindow && now - t.lastRateLimitReset < 1000 then (t, WindowExceeded)
    else
      var u := if now - t.lastRateLimitReset >= 1000 then WithReset(t, now) else t;
      (u, if u.windowBytesSent + size > c.maxBytesPerSecond then RateExceeded else Done)
  }

  function Put(s: State, id: StreamId, t: Stream): State { s.(streams := s.streams[id := t]) }

  function RemoveAt(q: seq<Send>, k: nat): seq<Send>
    requires k < |q|
  {
    q[..k] + q[k + 1..]
  }

  function OutcomeOf(c: Config, s: State, e: Event): Outcome {
    match e
    case Open(peer, _) => if |StreamsOf(s, peer)| >= c.maxConcurrentStreams then LimitReached else Done
    case SendStart(id, size, now) => if id !in s.streams then NotFound else CheckSend(c, s.streams[id], size, now).1
    case Receive(id, _) =>
      if id !in s.streams then NotFound else if s.streams[id].status != Active then NotActive else Done
    case Retry(id) =>
      if id !in s.streams then NotFound
      else if s.streams[id].status != Error then NotInError
      else if s.streams[id].retryCount >= c.maxRetries then RetriesExceeded
      else Done
    case _ => if e.id in s.streams then Done else NotFound
  }

  function Step(c: Config, s: State, e: Event): State {
    match e
    case Open(peer, now) =>
      var id := s.counter + 1;
      var t := s.(counter := id);
      if |StreamsOf(s, peer)| >= c.maxConcurrentStreams then t
      else
        t.(streams := s.streams[id := Stream(peer, now, 0, 0, Active, 0, now, false, 0, [])],
           peerStreams := s.peerStreams[peer := StreamsOf(s, peer) + {id}])
    case OpenFailed(id) => Cleanup(s, id)
    case CloseStart(id) =>
      if id !in s.streams || s.streams[id].status == Closed then s else Put(s, id, s.streams[id].(status := Closing))
    case CloseDone(id) => Cleanup(s, id)
    case Cancel(id) =>
      if id !in s.streams || s.streams[id].status == Closed || s.streams[id].status == Cancelled then s
      else Cleanup(s, id)
    case SendStart(id, size, now) =>
      if id !in s.streams then s
      else
        var (t, outcome) := CheckSend(c, s.streams[id], size, now);
        Put(s, id, if outcome == Done then t.(sending := t.sending + [Send(size, 0)]) else t)
    case AttemptFailed(id, k) =>
      if id !in s.streams || k >= |s.streams[id].sending| then s
      else
        var t := s.streams[id];
        var a := t.sending[k].attempt;
        // The last failure leaves the stream in error; nothing looks at the status before that.
        Put(s, id, if a < c.maxRetries
                   then t.(retryCount := a + 1, sending := t.sending[k := Send(t.sending[k].size, a + 1)])
                   else t.(retryCount := a + 1, status := Error, sending := RemoveAt(t.sending, k)))
    case SendDone(id, k) =>
      if id !in s.streams || k >= |s.streams[id].sending| then s
      else
        var t := s.streams[id];
        var size := t.sending[k].size;
        Put(s, id, t.(bytesSent := t.bytesSent + size, windowBytesSent := t.windowBytesSent + size, retryCount := 0,
                      sending := RemoveAt(t.sending, k)))
    case Receive(id, size) =>
      if id !in s.streams || s.streams[id].status != Active then s
      else Put(s, id, s.streams[id].(bytesReceived := s.streams[id].bytesReceived + size))
    case Retry(id) =>
      if OutcomeOf(c, s, e) == Done then Put(s, id, s.streams[id].(status := Active)) else s
  }

  function Run(c: Config, events: seq<Event>): State {
    if events == [] then Init else Step(c, Run(c, events[..|events| - 1]), events[|events| - 1])
  }

  // ---------- What is admitted ----------

  /** The window a send meets: empty, and beginning now, if the old one is a second old. */
  function WindowFor(t: Stream, now: int): nat { if t.lastRateLimitReset + 1000 <= now then 0 else t.windowBytesSent }

  /** A send is admitted if and only if the stream is there, active and not cancelled, the size fits into the rate on
      top of the window it meets, and, within the second, into the flow-control window too. What is said instead is
      the first of these that fails. */
  lemma SendAdmittedIff(c: Config, s: State, id: StreamId, size: nat, now: int)
    ensures var r, e := OutcomeOf(c, s, SendStart(id, size, now)), SendStart(id, size, now);
            && (r == NotFound <==> id !in s.streams)
            && (id in s.streams ==>
                  var t := s.streams[id];
                  var usable, window := t.status == Active && !t.cancelled, WindowFor(t, now);
                  var held := now < t.lastRateLimitReset + 1000 && t.windowBytesSent + size > c.flowControlWindow;
                  && (r == NotActive <==> !usable)
                  && (r == WindowExceeded <==> usable && held)
                  && (r == RateExceeded <==> usable && !held && window + size > c.maxBytesPerSecond)
                  && (r == Done <==> usable && !held && window + size <= c.maxBytesPerSecond))
  {
  }

  /** An admitted send is put behind those in flight, with the window it met; one that is refused leaves the stream as
      it was, but for the beginning of a new window where the rate refused it. */
  lemma SendWrites(c: Config, s: State, id: StreamId, size: nat, now: int)
    requires id in s.streams
    ensures var e, t := SendStart(id, size, now), s.streams[id];
            var windowed := if t.lastRateLimitReset + 1000 <= now
                            then t.(windowBytesSent := 0, lastRateLimitReset := now) else t;
            Step(c, s, e) == s.(streams := s.streams[id :=
              if OutcomeOf(c, s, e) == Done then windowed.(sending := t.sending + [Send(size, 0)])
              else if OutcomeOf(c, s, e) == RateExceeded then windowed
              else t])
  {
  }

  /** A success counts the bytes of its send once, a failure counts none, and bytes received count on active streams. */
  lemma BytesCounted(c: Config, s: State, id: StreamId, k: nat, size: nat)
    requires id in s.streams
    ensures var t := s.streams[id];
            && (k < |t.sending| ==>
                  var u := Step(c, s, SendDone(id, k)).streams[id];
                  && u.bytesSent == t.bytesSent + t.sending[k].size
                  && u.windowBytesSent == t.windowBytesSent + t.sending[k].size && u.retryCount == 0)
            && (k < |t.sending| ==>
                  var u := Step(c, s, AttemptFailed(id, k)).streams[id];
                  && u.bytesSent == t.bytesSent && u.windowBytesSent == t.windowBytesSent
                  && u.retryCount == t.sending[k].attempt + 1
                  && u.status == (if t.sending[k].attempt < c.maxRetries then t.status else Error))
            && Step(c, s, Receive(id, size)).streams[id] ==
                 if t.status == Active then t.(bytesReceived := t.bytesReceived + size) else t
  {
  }

  // ---------- The index, over every run ----------

  /** The index holds exactly the streams of each peer, no empty group, and no group above the limit. */
  ghost predicate Indexed(c: Config, s: State) {
    && (forall id | id in s.streams :: id <= s.counter && id in StreamsOf(s, s.streams[id].peer))
    && (forall p | p in s.peerStreams ::
          && 0 < |s.peerStreams[p]| <= c.maxConcurrentStreams
          && forall id <- s.peerStreams[p] :: id in s.streams && s.streams[id].peer == p)
  }

  /** Without its stream, a group is smaller by one, and empty groups go. */
  lemma CleanupGroups(c: Config, s: State, id: StreamId)
    requires Indexed(c, s) && id in s.streams
    ensures var t := Cleanup(s, id);
            forall q | q in t.peerStreams ::
              && q in s.peerStreams && t.peerStreams[q] == s.peerStreams[q] - {id}
              && 0 < |t.peerStreams[q]| <= c.maxConcurrentStreams
  {
    var p := s.streams[id].peer;
    assert |s.peerStreams[p] - {id}| == |s.peerStreams[p]| - 1;
  }

  lemma CleanupFinds(c: Config, s: State, id: StreamId)
    requires Indexed(c, s) && id in s.streams
    ensures var t := Cleanup(s, id);
            forall j | j in t.streams :: j in s.streams && t.streams[j] == s.streams[j] && j != id
                                         && j in StreamsOf(t, s.streams[j].peer)
  {
  }

  lemma CleanupKeeps(c: Config, s: State, id: StreamId)
    requires Indexed(c, s)
    ensures Indexed(c, Cleanup(s, id)) && id !in Cleanup(s, id).streams
  {
    hide StreamsOf, Indexed;
    if id in s.streams {
      CleanupGroups(c, s, id);
      CleanupFinds(c, s, id);
      FewerIndexed(c, s, Cleanup(s, id), id);
    }
  }

  lemma SetThenDrop(m: map<PeerId, set<StreamId>>, p: PeerId, ids: set<StreamId>)
    ensures m[p := ids] - {p} == m - {p}
  {
  }

  lemma FewerIndexed(c: Config, s: State, t: State, id: StreamId)
    requires Indexed(c, s) && t.streams == s.streams - {id} && t.counter == s.counter
    requires forall q | q in t.peerStreams ::
               && q in s.peerStreams && t.peerStreams[q] == s.peerStreams[q] - {id}
               && 0 < |t.peerStreams[q]| <= c.maxConcurrentStreams
    requires forall j | j in t.streams :: j in StreamsOf(t, t.streams[j].peer)
    ensures Indexed(c, t)
  {
    hide StreamsOf;
    forall p | p in t.peerStreams
      ensures forall j <- t.peerStreams[p] :: j in t.streams && t.streams[j].peer == p
    {
      assert forall j <- t.peerStreams[p] :: j in s.peerStreams[p];
    }
  }

  lemma PutKeeps(c: Config, s: State, id: StreamId, t: Stream)
    requires Indexed(c, s) && id in s.streams && t.peer == s.streams[id].peer
    ensures Indexed(c, Put(s, id, t))
  {
    var u := Put(s, id, t);
    assert forall p :: StreamsOf(u, p) == StreamsOf(s, p);
  }

  lemma OpenKeeps(c: Config, s: State, peer: PeerId, id: StreamId, t: Stream)
    requires Indexed(c, s) && id == s.counter + 1 && t.peer == peer && |StreamsOf(s, peer)| < c.maxConcurrentStreams
    ensures id !in s.streams && id !in StreamsOf(s, peer)
    ensures Indexed(c, State(s.streams[id := t], s.peerStreams[peer := StreamsOf(s, peer) + {id}], id))
  {
    var u := State(s.streams[id := t], s.peerStreams[peer := StreamsOf(s, peer) + {id}], id);
    forall j | j in u.streams ensures j <= u.counter && j in StreamsOf(u, u.streams[j].peer) {
      assert j != id ==> j in s.streams;
    }
  }

  ghost function OpenTo(s: State, p: PeerId): set<StreamId> { set id | id in s.streams && s.streams[id].peer == p }

  /** A stream is opened if and only if the peer has fewer than the limit; it is new, active, empty and without a
      window, and all other streams stay. Closing or cancelling one takes it away and no other. */
  lemma OpensIff(c: Config, s: State, p: PeerId, now: int)
    requires Indexed(c, s)
    ensures var t, id := Step(c, s, Open(p, now)), s.counter + 1;
            && (OutcomeOf(c, s, Open(p, now)) == Done <==> |OpenTo(s, p)| < c.maxConcurrentStreams)
            && id !in s.streams && t.counter == id
            && t.streams == if |OpenTo(s, p)| < c.maxConcurrentStreams
                            then s.streams[id := Stream(p, now, 0, 0, Active, 0, now, false, 0, [])] else s.streams
    ensures forall id :: Step(c, s, CloseDone(id)).streams == s.streams - {id}
  {
    assert OpenTo(s, p) == StreamsOf(s, p);
    assert s.counter + 1 !in s.streams;
    hide Indexed, StreamsOf, OpenTo;
    forall id ensures Step(c, s, CloseDone(id)).streams == s.streams - {id} {
      assert id !in s.streams ==> s.streams - {id} == s.streams;
    }
  }

  /** The other operations, by the stream they are for: a failed opening and a cancellation take it away, closing marks
      it first, and a retry past its guards makes it active again. All other streams stay. */
  lemma EndsAre(c: Config, s: State, id: StreamId)
    ensures Step(c, s, OpenFailed(id)).streams == s.streams - {id}
    ensures var t := Step(c, s, Cancel(id));
            if id in s.streams && s.streams[id].status != Closed && s.streams[id].status != Cancelled
            then t.streams == s.streams - {id} else t == s
    ensures var t := Step(c, s, CloseStart(id));
            if id in s.streams && s.streams[id].status != Closed
            then t == s.(streams := s.streams[id := s.streams[id].(status := Closing)]) else t == s
    ensures var t := Step(c, s, Retry(id));
            if id in s.streams && s.streams[id].status == Error && s.streams[id].retryCount < c.maxRetries
            then t == s.(streams := s.streams[id := s.streams[id].(status := Active)]) else t == s
  {
    assert id !in s.streams ==> s.streams - {id} == s.streams;
    hide StreamsOf;
  }

  lemma CounterOnly(c: Config, s: State)
    requires Indexed(c, s)
    ensures Indexed(c, s.(counter := s.counter + 1))
  {
    var t := s.(counter := s.counter + 1);
    assert forall p :: StreamsOf(t, p) == StreamsOf(s, p);
  }

  /** Events that neither open nor remove a stream update at most one record, and not its peer. */
  predicate Updates(e: Event) { !e.Open? && !e.OpenFailed? && !e.CloseDone? && !e.Cancel? }

  lemma UpdateIsPut(c: Config, s: State, e: Event)
    requires Updates(e)
    ensures var t := Step(c, s, e);
            t == s || (e.id in s.streams && e.id in t.streams && t == Put(s, e.id, t.streams[e.id])
                       && t.streams[e.id].peer == s.streams[e.id].peer)
  {
  }

  /** Every operation keeps the index, whether sends overlap or not. */
  lemma StepKeeps(c: Config, s: State, e: Event)
    requires Indexed(c, s)
    ensures Indexed(c, Step(c, s, e))
  {
    hide Indexed;
    if Updates(e) {
      UpdateIsPut(c, s, e);
      var t := Step(c, s, e);
      hide Step;
      if t != s {
        PutKeeps(c, s, e.id, t.streams[e.id]);
      }
    } else if e.Open? {
      CounterOnly(c, s);
      if |StreamsOf(s, e.peer)| < c.maxConcurrentStreams {
        OpenKeeps(c, s, e.peer, s.counter + 1, Stream(e.peer, e.now, 0, 0, Active, 0, e.now, false, 0, []));
      }
    } else {
      CleanupKeeps(c, s, e.id);
    }
  }

  lemma {:induction false} RunKeeps(c: Config, events: seq<Event>)
    ensures Indexed(c, Run(c, events))
  {
    if events != [] {
      hide Step, Indexed;
      RunKeeps(c, events[..|events| - 1]);
      StepKeeps(c, Run(c, events[..|events| - 1]), events[|events| - 1]);
    }
  }

  // ---------- The rate window ----------

  /** The bytes of the sends being attempted. */
  function InFlight(q: seq<Send>): nat { if q == [] then 0 else InFlight(q[..|q| - 1]) + q[|q| - 1].size }

  lemma InFlightAppend(q: seq<Send>, a: Send)
    ensures InFlight(q + [a]) == InFlight(q) + a.size
  {
    assert (q + [a])[..|q|] == q;
  }

  lemma {:induction false} InFlightRemove(q: seq<Send>, k: nat)
    requires k < |q|
    ensures InFlight(RemoveAt(q, k)) + q[k].size == InFlight(q)
  {
    var front, last := q[..|q| - 1], q[|q| - 1];
    if k == |front| {
      assert RemoveAt(q, k) == front;
    } else {
      InFlightRemove(front, k);
      assert RemoveAt(q, k) == RemoveAt(front, k) + [last];
      InFlightAppend(RemoveAt(front, k), last);
    }
  }

  lemma InFlightRetry(q: seq<Send>, k: nat, a: nat)
    requires k < |q|
    ensures InFlight(q[k := Send(q[k].size, a)]) == InFlight(q)
  {
    InFlightRemove(q, k);
    InFlightRemove(q[k := Send(q[k].size, a)], k);
    assert RemoveAt(q[k := Send(q[k].size, a)], k) == RemoveAt(q, k);
  }

  /** The window counter together with what is in flight is within the limit. */
  predicate Within(limit: nat, t: Stream) { t.windowBytesSent + InFlight(t.sending) <= limit }

  ghost predicate AllWithin(limit: nat, s: State) { forall id | id in s.streams :: Within(limit, s.streams[id]) }

  /** An admitted send fits beside what is in flight. */
  predicate FitsWithin(limit: nat, c: Config, s: State, e: Event) {
    e.SendStart? && OutcomeOf(c, s, e) == Done ==>
      var u := CheckSend(c, s.streams[e.id], e.size, e.now).0;
      u.windowBytesSent + InFlight(u.sending) + e.size <= limit
  }

  ghost predicate RunFitsWithin(limit: nat, c: Config, events: seq<Event>) {
    forall k | 0 <= k < |events| :: FitsWithin(limit, c, Run(c, events[..k]), events[k])
  }

  /** What is in flight still fits the current window, and what was sent before the window fits the seconds before
      it. */
  predicate RateOk(c: Config, t: Stream) {
    && Within(c.maxBytesPerSecond, t)
    && t.createdAt <= t.lastRateLimitReset
    && t.bytesSent - t.windowBytesSent <= c.maxBytesPerSecond * ((t.lastRateLimitReset - t.createdAt) / 1000)
  }

  ghost predicate Rates(c: Config, s: State) { forall id | id in s.streams :: RateOk(c, s.streams[id]) }

  /** An admitted send also fits beside what is in flight; the code compares it with the window alone. */
  predicate Fits(c: Config, s: State, e: Event) { FitsWithin(c.maxBytesPerSecond, c, s, e) }

  lemma NextSecond(m: nat, from: int, last: int, now: int)
    requires from <= last && last + 1000 <= now
    ensures m * ((last - from) / 1000) + m <= m * ((now - from) / 1000)
  {
    var q, r := (last - from) / 1000, (now - from) / 1000;
    assert r >= q + 1;
    assert m * (r - q - 1) >= 0;
    assert m * (r - q - 1) == m * r - m * q - m;
  }

  lemma CheckKeepsRate(c: Config, t: Stream, size: nat, now: int)
    requires RateOk(c, t)
    ensures RateOk(c, CheckSend(c, t, size, now).0)
  {
    if now - t.lastRateLimitReset >= 1000 {
      NextSecond(c.maxBytesPerSecond, t.createdAt, t.lastRateLimitReset, now);
    }
  }

  /** A step keeps the rate of every stream exactly when it is not an admitted send that does not fit. */
  lemma StepRates(c: Config, s: State, e: Event)
    requires Rates(c, s)
    ensures Rates(c, Step(c, s, e)) <==> Fits(c, s, e)
  {
    hide InFlight, RateOk;
    if e.SendStart? {
      StartRates(c, s, e);
    } else if Updates(e) {
      UpdateIsPut(c, s, e);
      if e.id in s.streams {
        UpdateRate(c, s, e);
      }
    } else if e.Open? {
      assert RateOk(c, Stream(e.peer, e.now, 0, 0, Active, 0, e.now, false, 0, [])) by { FreshRate(c, e.peer, e.now); }
    }
  }

  lemma FreshRate(c: Config, peer: PeerId, now: int)
    ensures RateOk(c, Stream(peer, now, 0, 0, Active, 0, now, false, 0, []))
  {
  }

  lemma StartRates(c: Config, s: State, e: Event)
    requires Rates(c, s) && e.SendStart?
    ensures Rates(c, Step(c, s, e)) <==> Fits(c, s, e)
  {
    hide InFlight;
    if e.id in s.streams {
      var u := CheckSend(c, s.streams[e.id], e.size, e.now).0;
      CheckKeepsRate(c, s.streams[e.id], e.size, e.now);
      InFlightAppend(u.sending, Send(e.size, 0));
      assert e.id in Step(c, s, e).streams;
    }
  }

  lemma UpdateRate(c: Config, s: State, e: Event)
    requires Updates(e) && !e.SendStart? && e.id in s.streams && RateOk(c, s.streams[e.id])
    ensures e.id in Step(c, s, e).streams && RateOk(c, Step(c, s, e).streams[e.id])
  {
    hide InFlight;
    var q := s.streams[e.id].sending;
    if (e.AttemptFailed? || e.SendDone?) && e.k < |q| {
      InFlightRemove(q, e.k);
      InFlightRetry(q, e.k, q[e.k].attempt + 1);
    }
  }

  /** The total sent never exceeds the rate times the seconds begun, and neither does one window. */
  lemma RateBound(c: Config, t: Stream)
    requires RateOk(c, t)
    ensures t.windowBytesSent <= c.maxBytesPerSecond
    ensures t.bytesSent <= c.maxBytesPerSecond * (1 + (t.lastRateLimitReset - t.createdAt) / 1000)
  {
    var q := (t.lastRateLimitReset - t.createdAt) / 1000;
    assert c.maxBytesPerSecond * (1 + q) == c.maxBytesPerSecond + c.maxBytesPerSecond * q;
  }

  ghost predicate RunFits(c: Config, events: seq<Event>) { RunFitsWithin(c.maxBytesPerSecond, c, events) }

  ghost predicate AlwaysRates(c: Config, events: seq<Event>) {
    forall k | 0 <= k <= |events| :: Rates(c, Run(c, events[..k]))
  }

  lemma AlwaysRatesFront(c: Config, events: seq<Event>)
    requires events != []
    ensures AlwaysRates(c, events) <==> AlwaysRates(c, events[..|events| - 1]) && Rates(c, Run(c, events))
  {
    hide Run, Rates;
    var front := events[..|events| - 1];
    if AlwaysRates(c, events) {
      forall n | 0 <= n <= |front| ensures Rates(c, Run(c, front[..n])) {
        assert front[..n] == events[..n];
      }
      assert Rates(c, Run(c, events[..|events|])) && events[..|events|] == events;
    }
    if AlwaysRates(c, front) && Rates(c, Run(c, events)) {
      forall n | 0 <= n <= |events| ensures Rates(c, Run(c, events[..n])) {
        if n == |events| {
          assert events[..n] == events;
        } else {
          assert Rates(c, Run(c, front[..n])) && front[..n] == events[..n];
        }
      }
    }
  }

  lemma AlwaysRatesNow(c: Config, events: seq<Event>)
    requires AlwaysRates(c, events)
    ensures Rates(c, Run(c, events))
  {
    hide Run, Rates;
    assert events[..|events|] == events;
  }

  /** All states of a run keep the rates exactly when every admitted send fits beside those in flight. */
  lemma {:induction false} RunRates(c: Config, events: seq<Event>)
    ensures RunFits(c, events) <==> AlwaysRates(c, events)
  {
    hide FitsWithin, Rates, Step;
    if events == [] {
      InitRates(c);
      assert forall k | 0 <= k <= |events| :: events[..k] == [];
      assert Run(c, []) == Init;
    } else {
      var front, last := events[..|events| - 1], events[|events| - 1];
      RunRates(c, front);
      AlwaysRatesFront(c, events);
      RunFitsFront(c.maxBytesPerSecond, c, events);
      hide AlwaysRates, RunFitsWithin, AlwaysWithin;
      if AlwaysRates(c, front) {
        AlwaysRatesNow(c, front);
        StepRates(c, Run(c, front), last);
      }
    }
  }

  lemma InitRates(c: Config)
    ensures Rates(c, Init)
  {
  }

  /** The long-run bound, for every stream alive at the end of such a run, overlapping sends included. */
  lemma RunRateBound(c: Config, events: seq<Event>, id: StreamId)
    requires RunFits(c, events) && id in Run(c, events).streams
    ensures var t := Run(c, events).streams[id];
            && t.windowBytesSent + InFlight(t.sending) <= c.maxBytesPerSecond
            && t.bytesSent - t.windowBytesSent <= c.maxBytesPerSecond * ((t.lastRateLimitReset - t.createdAt) / 1000)
            && t.bytesSent <= c.maxBytesPerSecond * (1 + (t.lastRateLimitReset - t.createdAt) / 1000)
  {
    hide Run, RunFits, AlwaysRates, InFlight;
    RunRates(c, events);
    AlwaysRatesNow(c, events);
    RateBound(c, Run(c, events).streams[id]);
  }

  /** All sends of a stream complete, one after the other. */
  function FinishAll(c: Config, s: State, id: StreamId, n: nat): State
    decreases n
  {
    if n == 0 then s else FinishAll(c, Step(c, s, SendDone(id, 0)), id, n - 1)
  }

  lemma {:induction false} FinishAllSends(c: Config, s: State, id: StreamId)
    requires id in s.streams
    ensures var t, u := s.streams[id], FinishAll(c, s, id, |s.streams[id].sending|);
            id in u.streams && u.streams[id].windowBytesSent == t.windowBytesSent + InFlight(t.sending)
    decreases |s.streams[id].sending|
  {
    hide InFlight;
    var q := s.streams[id].sending;
    if q == [] {
      assert InFlight([]) == 0 by { NothingInFlight(); }
    } else {
      InFlightRemove(q, 0);
      FinishAllSends(c, Step(c, s, SendDone(id, 0)), id);
    }
  }

  lemma NothingInFlight()
    ensures InFlight([]) == 0
  {
  }

  /** What an admitted send breaks: once everything in flight has been sent, the window is above the rate
      exactly when the send did not fit beside the others. */
  lemma OverlapExceedsRate(c: Config, s: State, e: Event)
    requires e.SendStart? && OutcomeOf(c, s, e) == Done
    ensures var t := Step(c, s, e);
            e.id in t.streams &&
            var u := FinishAll(c, t, e.id, |t.streams[e.id].sending|);
            e.id in u.streams && (u.streams[e.id].windowBytesSent > c.maxBytesPerSecond <==> !Fits(c, s, e))
  {
    hide InFlight, FinishAll;
    var t := Step(c, s, e);
    InFlightAppend(CheckSend(c, s.streams[e.id], e.size, e.now).0.sending, Send(e.size, 0));
    FinishAllSends(c, t, e.id);
  }

  /** After a send that passed the checks, the flow-control window is respected exactly when the data
      itself is no larger than the window: a window reset is not followed by a second comparison. */
  lemma FlowControlWindow(c: Config, t: Stream, size: nat, now: int)
    requires CheckSend(c, t, size, now).1 == Done
    ensures CheckSend(c, t, size, now).0.windowBytesSent + size <= c.flowControlWindow <==> size <= c.flowControlWindow
  {
  }

  lemma StepWithin(limit: nat, c: Config, s: State, e: Event)
    requires AllWithin(limit, s)
    ensures AllWithin(limit, Step(c, s, e)) <==> FitsWithin(limit, c, s, e)
  {
    hide InFlight, Within;
    if e.SendStart? {
      StartWithin(limit, c, s, e);
    } else if Updates(e) {
      UpdateIsPut(c, s, e);
      if e.id in s.streams {
        UpdateWithin(limit, c, s, e);
      }
    } else if e.Open? {
      NothingWithin(limit, Stream(e.peer, e.now, 0, 0, Active, 0, e.now, false, 0, []));
    }
  }

  lemma NothingWithin(limit: nat, t: Stream)
    ensures t.windowBytesSent == 0 && t.sending == [] ==> Within(limit, t)
  {
  }

  lemma StartWithin(limit: nat, c: Config, s: State, e: Event)
    requires AllWithin(limit, s) && e.SendStart?
    ensures AllWithin(limit, Step(c, s, e)) <==> FitsWithin(limit, c, s, e)
  {
    hide InFlight;
    if e.id in s.streams {
      var u := CheckSend(c, s.streams[e.id], e.size, e.now).0;
      assert Within(limit, s.streams[e.id]) && Within(limit, u);
      InFlightAppend(u.sending, Send(e.size, 0));
      assert e.id in Step(c, s, e).streams;
    }
  }

  lemma UpdateWithin(limit: nat, c: Config, s: State, e: Event)
    requires Updates(e) && !e.SendStart? && e.id in s.streams && Within(limit, s.streams[e.id])
    ensures e.id in Step(c, s, e).streams && Within(limit, Step(c, s, e).streams[e.id])
  {
    hide InFlight;
    var q := s.streams[e.id].sending;
    if (e.AttemptFailed? || e.SendDone?) && e.k < |q| {
      InFlightRemove(q, e.k);
      InFlightRetry(q, e.k, q[e.k].attempt + 1);
    }
  }

  ghost predicate AlwaysWithin(limit: nat, c: Config, events: seq<Event>) {
    forall k | 0 <= k <= |events| :: AllWithin(limit, Run(c, events[..k]))
  }

  lemma AlwaysWithinFront(limit: nat, c: Config, events: seq<Event>)
    requires events != []
    ensures AlwaysWithin(limit, c, events) <==>
            AlwaysWithin(limit, c, events[..|events| - 1]) && AllWithin(limit, Run(c, events))
  {
    hide Run, AllWithin;
    var front := events[..|events| - 1];
    if AlwaysWithin(limit, c, events) {
      forall n | 0 <= n <= |front| ensures AllWithin(limit, Run(c, front[..n])) {
        assert front[..n] == events[..n];
      }
      assert AllWithin(limit, Run(c, events[..|events|])) && events[..|events|] == events;
    }
    if AlwaysWithin(limit, c, front) && AllWithin(limit, Run(c, events)) {
      forall n | 0 <= n <= |events| ensures AllWithin(limit, Run(c, events[..n])) {
        if n == |events| {
          assert events[..n] == events;
        } else {
          assert AllWithin(limit, Run(c, front[..n])) && front[..n] == events[..n];
        }
      }
    }
  }

  lemma RunFitsFront(limit: nat, c: Config, events: seq<Event>)
    requires events != []
    ensures var front, last := events[..|events| - 1], events[|events| - 1];
            RunFitsWithin(limit, c, events) <==>
            RunFitsWithin(limit, c, front) && FitsWithin(limit, c, Run(c, front), last)
  {
    hide Run, FitsWithin;
    var front := events[..|events| - 1];
    assert events[..|front|] == front && events[|front|] == events[|events| - 1];
    forall k | 0 <= k < |front| ensures front[..k] == events[..k] && front[k] == events[k] {
    }
  }

  lemma AlwaysWithinNow(limit: nat, c: Config, events: seq<Event>)
    requires AlwaysWithin(limit, c, events)
    ensures AllWithin(limit, Run(c, events))
  {
    hide Run, AllWithin;
    assert events[..|events|] == events;
  }

  lemma {:induction false} RunWithin(limit: nat, c: Config, events: seq<Event>)
    ensures RunFitsWithin(limit, c, events) <==> AlwaysWithin(limit, c, events)
  {
    hide FitsWithin, AllWithin, Step;
    if events == [] {
      assert AllWithin(limit, Init) by { InitWithin(limit); }
      assert forall k | 0 <= k <= |events| :: events[..k] == [];
      assert Run(c, []) == Init;
    } else {
      var front, last := events[..|events| - 1], events[|events| - 1];
      RunWithin(limit, c, front);
      AlwaysWithinFront(limit, c, events);
      RunFitsFront(limit, c, events);
      hide AlwaysWithin, RunFitsWithin;
      if AlwaysWithin(limit, c, front) {
        AlwaysWithinNow(limit, c, front);
        StepWithin(limit, c, Run(c, front), last);
      }
    }
  }

  lemma InitWithin(limit: nat)
    ensures AllWithin(limit, Init)
  {
  }

  /** Over every run, overlapping sends included: no stream ever has more sent and in flight than its flow-control
      window if and only if every admitted send fits into that window beside what is in flight. */
  lemma FlowControlRuns(c: Config, events: seq<Event>)
    ensures RunFitsWithin(c.flowControlWindow, c, events) <==> AlwaysWithin(c.flowControlWindow, c, events)
  {
    RunWithin(c.flowControlWindow, c, events);
    hide RunFitsWithin, AlwaysWithin;
  }

  // ---------- Sends that do not overlap ----------

  /** A send on a stream starts only when no other send on it is being attempted. */
  predicate NoOverlap(s: State, e: Event) {
    e.SendStart? && e.id in s.streams ==> s.streams[e.id].sending == []
  }

  ghost predicate RunSequential(c: Config, events: seq<Event>) {
    forall k | 0 <= k < |events| :: NoOverlap(Run(c, events[..k]), events[k])
  }

  /** A send alone in flight fits, so the rate bound covers every run without overlap. */
  lemma SequentialFits(c: Config, events: seq<Event>)
    requires RunSequential(c, events)
    ensures RunFits(c, events)
  {
    hide Run;
    forall k | 0 <= k < |events| ensures Fits(c, Run(c, events[..k]), events[k]) {
      assert NoOverlap(Run(c, events[..k]), events[k]);
      AloneFits(c, Run(c, events[..k]), events[k]);
    }
  }

  lemma AloneFits(c: Config, s: State, e: Event)
    requires NoOverlap(s, e)
    ensures Fits(c, s, e)
  {
    NothingInFlight();
  }

  // ---------- Retrying a stream ----------

  datatype Wrote = Nothing | Success | Failure(attempt: nat)

  /** The last event that wrote the retry counter of a stream. */
  function LastWrite(c: Config, events: seq<Event>, id: StreamId): Wrote {
    if events == [] then Nothing
    else
      var front, e := events[..|events| - 1], events[|events| - 1];
      var s := Run(c, front);
      if (e.SendDone? || e.AttemptFailed?) && e.id == id && id in s.streams && e.k < |s.streams[id].sending|
      then if e.SendDone? then Success else Failure(s.streams[id].sending[e.k].attempt)
      else LastWrite(c, front, id)
  }

  function CountOf(w: Wrote): nat { match w case Failure(a) => a + 1 case _ => 0 }

  ghost predicate Counted(s: State, w: Wrote, id: StreamId) {
    && (id > s.counter ==> w.Nothing?)
    && (id in s.streams ==> s.streams[id].retryCount == CountOf(w) && (s.streams[id].status == Error ==> !w.Nothing?))
  }

  lemma {:induction false} RunCounted(c: Config, events: seq<Event>, id: StreamId)
    ensures Counted(Run(c, events), LastWrite(c, events, id), id)
  {
    if events != [] {
      var front, e := events[..|events| - 1], events[|events| - 1];
      RunCounted(c, front, id);
      RunKeeps(c, front);
      StepCounted(c, Run(c, front), e, LastWrite(c, front, id), id);
      hide Run, Indexed;
    }
  }

  lemma StepCounted(c: Config, s: State, e: Event, w: Wrote, id: StreamId)
    requires Indexed(c, s) && Counted(s, w, id)
    ensures Counted(Step(c, s, e),
                    if (e.SendDone? || e.AttemptFailed?) && e.id == id && id in s.streams
                      && e.k < |s.streams[id].sending|
                    then if e.SendDone? then Success else Failure(s.streams[id].sending[e.k].attempt) else w, id)
  {
    assert id in s.streams ==> id <= s.counter;
    hide Indexed, RemoveAt, StreamsOf, Counted;
    if Updates(e) {
      UpdateIsPut(c, s, e);
      UpdateCounted(c, s, e, w, id);
    } else {
      OtherCounted(c, s, e, w, id);
    }
  }

  lemma UpdateCounted(c: Config, s: State, e: Event, w: Wrote, id: StreamId)
    requires Updates(e) && Counted(s, w, id) && (id in s.streams ==> id <= s.counter)
    ensures Counted(Step(c, s, e),
                    if (e.SendDone? || e.AttemptFailed?) && e.id == id && id in s.streams
                      && e.k < |s.streams[id].sending|
                    then if e.SendDone? then Success else Failure(s.streams[id].sending[e.k].attempt) else w, id)
  {
    hide RemoveAt, StreamsOf;
  }

  lemma OtherCounted(c: Config, s: State, e: Event, w: Wrote, id: StreamId)
    requires !Updates(e) && Counted(s, w, id) && (id in s.streams ==> id <= s.counter)
    ensures Counted(Step(c, s, e), w, id)
  {
    hide StreamsOf;
  }

  /** Over every run, `retryStream` passes its guards exactly on a stream in error whose retry counter was last
      written by a success, or by a failed attempt that was not yet next to the last. */
  lemma RetrySucceeds(c: Config, events: seq<Event>, id: StreamId)
    ensures var s, w := Run(c, events), LastWrite(c, events, id);
            OutcomeOf(c, s, Retry(id)) == Done <==>
              && id in s.streams && s.streams[id].status == Error
              && ((w.Success? && c.maxRetries > 0) || (w.Failure? && w.attempt + 1 < c.maxRetries))
  {
    hide Run, LastWrite;
    RunCounted(c, events, id);
  }

  /** Without overlap, a stream in error has used up its retries. */
  predicate ErrorOk(c: Config, t: Stream) {
    |t.sending| <= 1 && (t.status == Error ==> t.retryCount > c.maxRetries && t.sending == [])
  }

  ghost predicate Sequential(c: Config, s: State) { forall id | id in s.streams :: ErrorOk(c, s.streams[id]) }

  lemma StepSequential(c: Config, s: State, e: Event)
    requires Sequential(c, s) && NoOverlap(s, e)
    ensures Sequential(c, Step(c, s, e))
  {
    if Updates(e) {
      UpdateIsPut(c, s, e);
      if e.id in s.streams {
        assert ErrorOk(c, s.streams[e.id]);
      }
    }
  }

  lemma {:induction false} RunIsSequential(c: Config, events: seq<Event>)
    requires RunSequential(c, events)
    ensures Sequential(c, Run(c, events))
  {
    if events != [] {
      hide Step, Sequential, NoOverlap;
      var front := events[..|events| - 1];
      assert forall k | 0 <= k < |front| :: front[..k] == events[..k];
      RunIsSequential(c, front);
      StepSequential(c, Run(c, front), events[|events| - 1]);
    } else {
      assert Run(c, events) == Init;
    }
  }

  /** So in a run in which sends do not overlap `retryStream` always throws. */
  lemma RetryNeverSucceeds(c: Config, events: seq<Event>, id: StreamId)
    requires RunSequential(c, events)
    ensures OutcomeOf(c, Run(c, events), Retry(id)) != Done
  {
    hide Run, RunSequential;
    RunIsSequential(c, events);
  }

  /** Attempts of the first send fail `n` times. */
  function Failures(id: StreamId, n: nat): seq<Event> {
    if n == 0 then [] else Failures(id, n - 1) + [AttemptFailed(id, 0)]
  }

  lemma RunAppend(c: Config, events: seq<Event>, e: Event)
    ensures Run(c, events + [e]) == Step(c, Run(c, events), e)
  {
    assert (events + [e])[..|events|] == events;
  }

  lemma FailOnce(c: Config, s: State, id: StreamId)
    requires id in s.streams && s.streams[id].sending != [] && s.streams[id].sending[0].attempt < c.maxRetries
    ensures var t, u := s.streams[id], Step(c, s, AttemptFailed(id, 0));
            id in u.streams && u.streams[id].status == t.status &&
            u.streams[id].sending == [Send(t.sending[0].size, t.sending[0].attempt + 1)] + t.sending[1..]
  {
  }

  lemma {:induction false} RunFailures(c: Config, events: seq<Event>, id: StreamId, n: nat)
    requires id in Run(c, events).streams && n <= c.maxRetries
    requires var q := Run(c, events).streams[id].sending; q != [] && q[0].attempt == 0
    ensures var t, u := Run(c, events).streams[id], Run(c, events + Failures(id, n));
            id in u.streams && u.streams[id].status == t.status &&
            u.streams[id].sending == [Send(t.sending[0].size, n)] + t.sending[1..]
  {
    hide Run, Step;
    if n == 0 {
      assert events + Failures(id, n) == events;
    } else {
      RunFailures(c, events, id, n - 1);
      assert events + Failures(id, n) == (events + Failures(id, n - 1)) + [AttemptFailed(id, 0)];
      RunAppend(c, events + Failures(id, n - 1), AttemptFailed(id, 0));
      FailOnce(c, Run(c, events + Failures(id, n - 1)), id);
    }
  }

  function TwoSends(): seq<Event> { [Open("p", 0)] + [SendStart(1, 0, 0)] + [SendStart(1, 0, 0)] }

  lemma TwoStarted(c: Config)
    requires c.maxConcurrentStreams > 0
    ensures var s := Run(c, TwoSends());
            1 in s.streams && s.streams[1].status == Active && s.streams[1].sending == [Send(0, 0), Send(0, 0)]
  {
    var zero := [Open("p", 0)];
    assert Run(c, []) == Init && [] + zero == zero;
    RunAppend(c, [], Open("p", 0));
    RunAppend(c, zero, SendStart(1, 0, 0));
    RunAppend(c, zero + [SendStart(1, 0, 0)], SendStart(1, 0, 0));
    hide Run;
    var s := Step(c, Init, Open("p", 0));
    assert s.streams[1] == Stream("p", 0, 0, 0, Active, 0, 0, false, 0, []);
    var t := Step(c, s, SendStart(1, 0, 0));
    assert t.streams[1].sending == [Send(0, 0)];
  }

  lemma LastFailureThenSuccess(c: Config, s: State)
    requires c.maxRetries > 0 && 1 in s.streams && s.streams[1].sending == [Send(0, c.maxRetries), Send(0, 0)]
    ensures var u := Step(c, Step(c, s, AttemptFailed(1, 0)), SendDone(1, 0));
            && 1 in u.streams && u.streams[1].status == Error && OutcomeOf(c, u, Retry(1)) == Done
            && 1 in Step(c, u, Retry(1)).streams && Step(c, u, Retry(1)).streams[1].status == Active
  {
    var t := Step(c, s, AttemptFailed(1, 0));
    assert t.streams[1].sending == [Send(0, 0)] && t.streams[1].status == Error;
  }

  /** Two sends on one new stream: the first fails for good, the second then succeeds. */
  function FailThenSucceed(c: Config): seq<Event> {
    TwoSends() + Failures(1, c.maxRetries) + [AttemptFailed(1, 0)] + [SendDone(1, 0)]
  }

  /** With retries allowed at all, that run leaves a stream in error which `retryStream` reopens. */
  lemma OverlapLetsRetry(c: Config)
    requires c.maxRetries > 0 && c.maxConcurrentStreams > 0
    ensures var s := Run(c, FailThenSucceed(c));
            && 1 in s.streams && s.streams[1].status == Error && OutcomeOf(c, s, Retry(1)) == Done
            && 1 in Step(c, s, Retry(1)).streams && Step(c, s, Retry(1)).streams[1].status == Active
  {
    hide Run, Step, Failures, TwoSends, OutcomeOf;
    TwoStarted(c);
    RunFailures(c, TwoSends(), 1, c.maxRetries);
    var failing := TwoSends() + Failures(1, c.maxRetries);
    assert [Send(0, c.maxRetries)] + [Send(0, 0), Send(0, 0)][1..] == [Send(0, c.maxRetries), Send(0, 0)];
    RunAppend(c, failing, AttemptFailed(1, 0));
    RunAppend(c, failing + [AttemptFailed(1, 0)], SendDone(1, 0));
    LastFailureThenSuccess(c, Run(c, failing));
  }

  // ---------- The manager ----------

  class StreamManager {
    const config: Config
    var streams: map<StreamId, Stream>
    var peerStreams: map<PeerId, set<StreamId>>
    var streamCounter: nat

    ghost function Value(): State
      reads this
    {
      State(streams, peerStreams, streamCounter)
    }

    ghost predicate Valid()
      reads this
    {
      Indexed(config, Value())
    }

    constructor (config: Config)
      ensures this.config == config && Value() == Init && Valid()
    {
      this.config := config;
      streams, peerStreams, streamCounter := map[], map[], 0;
    }

    /** Up to the call of the opener; `OpenFailed` is the branch in which that call throws. */
    method OpenStream(peer: PeerId, now: int) returns (id: StreamId, outcome: Outcome)
      requires Valid()
      modifies this
      ensures Valid() && Value() == Step(config, old(Value()), Open(peer, now))
      ensures outcome == OutcomeOf(config, old(Value()), Open(peer, now)) && id == old(streamCounter) + 1
      ensures outcome == Done ==> id !in old(streams) && id in streams
    {
      hide Indexed;
      StepKeeps(config, Value(), Open(peer, now));
      NewId(config, Value());
      streamCounter := streamCounter + 1;
      id := streamCounter;
      var group := if peer in peerStreams then peerStreams[peer] else {};
      if |group| >= config.maxConcurrentStreams {
        return id, LimitReached;
      }
      streams := streams[id := Stream(peer, now, 0, 0, Active, 0, now, false, 0, [])];
      if peer !in peerStreams {
        peerStreams := peerStreams[peer := {}];
      }
      peerStreams := peerStreams[peer := peerStreams[peer] + {id}];
      assert peerStreams == old(peerStreams)[peer := group + {id}];
      return id, Done;
    }

    method CleanupStream(id: StreamId)
      requires Valid()
      modifies this
      ensures Valid() && Value() == Cleanup(old(Value()), id) && id !in streams
    {
      hide Indexed;
      CleanupKeeps(config, Value(), id);
      if id !in streams {
        return;
      }
      ghost var before := peerStreams;
      var p := streams[id].peer;
      if p in peerStreams {
        var left := peerStreams[p] - {id};
        peerStreams := peerStreams[p := left];
        if |left| == 0 {
          peerStreams := peerStreams - {p};
          SetThenDrop(before, p, left);
        }
      }
      streams := streams - {id};
    }

    /** Marked closing, then closed and removed; a stream already closed is left alone. */
    method CloseStream(id: StreamId) returns (outcome: Outcome)
      requires Valid()
      modifies this
      ensures Valid() && (outcome == Done <==> id in old(streams)) && (outcome == NotFound <==> id !in old(streams))
      ensures Value() ==
                if id in old(streams) && old(streams)[id].status != Closed
                then Step(config, Step(config, old(Value()), CloseStart(id)), CloseDone(id))
                else old(Value())
    {
      hide Indexed;
      if id !in streams {
        return NotFound;
      }
      if streams[id].status == Closed {
        return Done;
      }
      StepKeeps(config, Value(), CloseStart(id));
      streams := streams[id := streams[id].(status := Closing)];
      CleanupStream(id);
      return Done;
    }

    method CancelStream(id: StreamId) returns (outcome: Outcome)
      requires Valid()
      modifies this
      ensures Valid() && Value() == Step(config, old(Value()), Cancel(id))
      ensures outcome == OutcomeOf(config, old(Value()), Cancel(id))
    {
      hide Indexed, Cleanup;
      if id !in streams {
        return NotFound;
      }
      if streams[id].status == Closed || streams[id].status == Cancelled {
        return Done;
      }
      var marked := streams[id].(cancelled := true, status := Cancelled);
      CleanupMarked(config, Value(), id, marked);
      streams := streams[id := marked];
      CleanupStream(id);
      return Done;
    }

    method ReceiveData(id: StreamId, size: nat) returns (outcome: Outcome)
      requires Valid()
      modifies this
      ensures Valid() && Value() == Step(config, old(Value()), Receive(id, size))
      ensures outcome == OutcomeOf(config, old(Value()), Receive(id, size))
    {
      hide Indexed;
      StepKeeps(config, Value(), Receive(id, size));
      if id !in streams {
        return NotFound;
      }
      if streams[id].status != Active {
        return NotActive;
      }
      streams := streams[id := streams[id].(bytesReceived := streams[id].bytesReceived + size)];
      return Done;
    }

    /** Up to the call of the opener, whose failure leaves the stream active as well. */
    method RetryStream(id: StreamId) returns (outcome: Outcome)
      requires Valid()
      modifies this
      ensures Valid() && Value() == Step(config, old(Value()), Retry(id))
      ensures outcome == OutcomeOf(config, old(Value()), Retry(id))
    {
      hide Indexed;
      StepKeeps(config, Value(), Retry(id));
      if id !in streams {
        return NotFound;
      }
      if streams[id].status != Error {
        return NotInError;
      }
      if streams[id].retryCount >= config.maxRetries {
        return RetriesExceeded;
      }
      streams := streams[id := streams[id].(status := Active)];
      return Done;
    }

    /** The checks in front of the attempts, with their window resets. */
    method StartSend(id: StreamId, size: nat, now: int) returns (outcome: Outcome)
      requires Valid()
      modifies this
      ensures Valid() && Value() == Step(config, old(Value()), SendStart(id, size, now))
      ensures outcome == OutcomeOf(config, old(Value()), SendStart(id, size, now))
    {
      hide Indexed;
      StepKeeps(config, Value(), SendStart(id, size, now));
      if id !in streams {
        return NotFound;
      }
      var stream := streams[id];
      if stream.status != Active || stream.cancelled {
        assert streams[id := stream] == streams;
        return NotActive;
      }
      if stream.windowBytesSent + size > config.flowControlWindow {
        var timeSinceReset := now - stream.lastRateLimitReset;
        if timeSinceReset >= 1000 {
          stream := stream.(windowBytesSent := 0, lastRateLimitReset := now);
        } else {
          assert streams[id := stream] == streams;
          return WindowExceeded;
        }
      }
      var timeSinceReset := now - stream.lastRateLimitReset;
      if timeSinceReset >= 1000 {
        stream := stream.(windowBytesSent := 0, lastRateLimitReset := now);
      }
      streams := streams[id := stream];
      if stream.windowBytesSent + size > config.maxBytesPerSecond {
        return RateExceeded;
      }
      streams := streams[id := stream.(sending := stream.sending + [Send(size, 0)])];
      assert streams == old(streams)[id := stream.(sending := stream.sending + [Send(size, 0)])];
      return Done;
    }

    /** The loop of the k-th send, left to itself: `accepted[i]` is the answer to attempt i, the first yes ends it. */
    method Attempts(id: StreamId, k: nat, accepted: seq<bool>) returns (sent: bool)
      requires Valid() && id in streams && k < |streams[id].sending| && streams[id].sending[k].attempt == 0
      requires |accepted| == config.maxRetries + 1
      modifies this
      ensures Valid() && id in streams && (sent <==> true in accepted)
      ensures var t, size := old(streams[id]), old(streams[id].sending[k].size);
              Value() == Put(old(Value()), id,
                if sent then t.(bytesSent := t.bytesSent + size, windowBytesSent := t.windowBytesSent + size,
                                retryCount := 0, sending := RemoveAt(t.sending, k))
                else t.(status := Error, retryCount := config.maxRetries + 1, sending := RemoveAt(t.sending, k)))
    {
      hide Indexed;
      var size := streams[id].sending[k].size;
      ghost var t := streams[id];
      var attempt := 0;
      while attempt <= config.maxRetries
        invariant 0 <= attempt <= config.maxRetries + 1 && true !in accepted[..attempt]
        invariant id in streams && Value() == Put(old(Value()), id, streams[id])
        invariant streams[id] == t.(retryCount := if attempt == 0 then t.retryCount else attempt,
                                    sending := streams[id].sending)
        invariant |streams[id].sending| == |t.sending| && RemoveAt(streams[id].sending, k) == RemoveAt(t.sending, k)
        invariant attempt <= config.maxRetries ==> streams[id].sending[k] == Send(size, attempt)
      {
        var u := streams[id];
        if accepted[attempt] {
          streams := streams[id := u.(bytesSent := u.bytesSent + size, windowBytesSent := u.windowBytesSent + size,
                                      retryCount := 0, sending := RemoveAt(u.sending, k))];
          assert true in accepted;
          assert streams == old(streams)[id := streams[id]];
          PutKeeps(config, old(Value()), id, streams[id]);
          return true;
        }
        assert accepted[..attempt + 1] == accepted[..attempt] + [accepted[attempt]];
        attempt := attempt + 1;
        streams := streams[id := u.(retryCount := attempt, sending := u.sending[k := Send(size, attempt)])];
      }
      assert accepted[..attempt] == accepted;
      streams := streams[id := streams[id].(status := Error, sending := RemoveAt(streams[id].sending, k))];
      assert streams == old(streams)[id := streams[id]];
      PutKeeps(config, old(Value()), id, streams[id]);
      return false;
    }
  }

  /** Undisturbed, the loop is the failed attempts one after the other and then the success, if there is one: its two
      outcomes are those of the single steps. */
  lemma {:induction false} AttemptsAreSteps(c: Config, s: State, id: StreamId, k: nat, n: nat)
    requires id in s.streams && k < |s.streams[id].sending|
    requires s.streams[id].sending[k].attempt + n <= c.maxRetries + 1
    ensures var t := s.streams[id];
            t.sending[k].attempt + n == c.maxRetries + 1 && n > 0 ==>
              FailAll(c, s, id, k, n)
              == Put(s, id, t.(status := Error, retryCount := c.maxRetries + 1, sending := RemoveAt(t.sending, k)))
    ensures var t, size := s.streams[id], s.streams[id].sending[k].size;
            t.sending[k].attempt + n <= c.maxRetries ==>
              Step(c, FailAll(c, s, id, k, n), SendDone(id, k))
              == Put(s, id, t.(bytesSent := t.bytesSent + size, windowBytesSent := t.windowBytesSent + size,
                               retryCount := 0, sending := RemoveAt(t.sending, k)))
    decreases n
  {
    var t := s.streams[id];
    if n > 0 && t.sending[k].attempt < c.maxRetries {
      var u := Step(c, s, AttemptFailed(id, k));
      FailedOnce(c, s, id, k);
      AttemptsAreSteps(c, u, id, k, n - 1);
      hide Step, RemoveAt;
    }
  }

  lemma FailedOnce(c: Config, s: State, id: StreamId, k: nat)
    requires id in s.streams && k < |s.streams[id].sending| && s.streams[id].sending[k].attempt < c.maxRetries
    ensures var t, a := s.streams[id], s.streams[id].sending[k];
            var sending := t.sending[k := Send(a.size, a.attempt + 1)];
            && Step(c, s, AttemptFailed(id, k)) == Put(s, id, t.(retryCount := a.attempt + 1, sending := sending))
            && RemoveAt(sending, k) == RemoveAt(t.sending, k)
  {
  }

  function FailAll(c: Config, s: State, id: StreamId, k: nat, n: nat): State
    decreases n
  {
    if n == 0 then s else FailAll(c, Step(c, s, AttemptFailed(id, k)), id, k, n - 1)
  }

  /** The record of a stream about to be removed does not matter to what is left. */
  lemma CleanupMarked(c: Config, s: State, id: StreamId, t: Stream)
    requires Indexed(c, s) && id in s.streams && t.peer == s.streams[id].peer
    ensures Indexed(c, Put(s, id, t)) && Cleanup(Put(s, id, t), id) == Cleanup(s, id)
  {
    PutKeeps(c, s, id, t);
    assert Put(s, id, t).streams - {id} == s.streams - {id};
  }

  lemma NewId(c: Config, s: State)
    requires Indexed(c, s)
    ensures s.counter + 1 !in s.streams
  {
  }
}
