/** Signal routing of scripts/signaling-server.js: registration, store and forward, and expiry. */
module Signaling {
  import opened Prelude
  import Frames

  type PeerId = string
  type Socket = nat

  const PENDING_TTL_MS: int := 2 * 60 * 1000

  /** A signal message; `frameBytes` is the size of the frame it is forwarded in. */
  datatype Signal = Signal(id: string, from: PeerId, to: PeerId, createdAt: int, expiresAt: int, frameBytes: nat)

  /** An accepted signal and its place in the order of acceptance. */
  datatype Item = Item(number: nat, signal: Signal)

  datatype Output =
    | SignalOut(socket: Socket, peer: PeerId, number: nat)
    | HelloAck(socket: Socket, peer: PeerId)
    | SignalAck(socket: Socket, id: string)
    | SenderMismatch(socket: Socket)

  /** Why an accepted signal will never be written: its time ran out, or its frame exceeds the limit. */
  datatype Reason = Pruned(at: int) | Oversize

  /** `peers`, `pending` and the `peerId` of each connection; then what was written, accepted and given up, the
      sockets on which `end` was called, those that have closed, and the signals written to one of either. */
  datatype State = State(
    peers: map<PeerId, Socket>,
    pending: map<PeerId, seq<Item>>,
    current: map<Socket, PeerId>,
    output: seq<Output>,
    accepted: seq<Signal>,
    dropped: map<nat, Reason>,
    ended: set<Socket>,
    closed: set<Socket>,
    lost: set<nat>)

  /** `Ended` is a close frame, or an oversize one: the socket takes no more writes, but stays registered until it is
      `Closed`, which stands for its close event and its error event. */
  datatype Event =
    | Hello(socket: Socket, peer: PeerId, now: int)
    | SignalIn(socket: Socket, signal: Signal, now: int, pruneNow: int)
    | Ended(socket: Socket)
    | Closed(socket: Socket)

  const Init: State := State(map[], map[], map[], [], [], map[], {}, {}, {})

  // ---------- Steps ----------

  predicate Fresh(s: Signal, now: int) {
    s.expiresAt >= now && s.createdAt + PENDING_TTL_MS >= now
  }

  predicate Fits(s: Signal) { s.frameBytes <= Frames.MAX_FRAME_BYTES }

  function FreshOf(q: seq<Item>, now: int): seq<Item> {
    if q == [] then []
    else (if Fresh(q[0].signal, now) then [q[0]] else []) + FreshOf(q[1..], now)
  }

  function Waiting(pending: map<PeerId, seq<Item>>, p: PeerId): seq<Item> {
    if p in pending then pending[p] else []
  }

  function PrunedQueues(pending: map<PeerId, seq<Item>>, now: int): map<PeerId, seq<Item>> {
    map p | p in pending && FreshOf(pending[p], now) != [] :: FreshOf(pending[p], now)
  }

  function StaleNumbers(pending: map<PeerId, seq<Item>>, now: int): set<nat> {
    set p, i | p in pending && 0 <= i < |pending[p]| && !Fresh(pending[p][i].signal, now) :: pending[p][i].number
  }

  function Prune(s: State, now: int): State {
    s.(pending := PrunedQueues(s.pending, now),
       dropped := s.dropped + map n | n in StaleNumbers(s.pending, now) :: Pruned(now))
  }

  /** What is written to the socket is gone. */
  predicate Unwritable(s: State, socket: Socket) { socket in s.ended || socket in s.closed }

  function Forward(s: State, socket: Socket, item: Item): State {
    if Fits(item.signal) then
      s.(output := s.output + [SignalOut(socket, item.signal.to, item.number)],
         lost := if Unwritable(s, socket) then s.lost + {item.number} else s.lost)
    else s.(dropped := s.dropped[item.number := Oversize])
  }

  function ForwardAll(s: State, socket: Socket, q: seq<Item>): State
    decreases |q|
  {
    if q == [] then s else ForwardAll(Forward(s, socket, q[0]), socket, q[1..])
  }

  function Step(s: State, e: Event): State {
    match e
    case Hello(socket, peer, now) =>
      var s1 := Prune(s.(peers := s.peers[peer := socket]), now);
      var q := Waiting(s1.pending, peer);
      var s2 := ForwardAll(s1.(pending := s1.pending - {peer}), socket, q);
      s2.(output := s2.output + [HelloAck(socket, peer)],
          // An empty id registers, but the connection does not take it as its own.
          current := if peer == "" then s2.current else s2.current[socket := peer])
    case SignalIn(socket, signal, now, pruneNow) =>
      if signal.expiresAt < now then s
      else if socket !in s.current || signal.from != s.current[socket] then
        s.(output := s.output + [SenderMismatch(socket)])
      else
        var item := Item(|s.accepted|, signal);
        var s1 := s.(accepted := s.accepted + [signal]);
        var s2 :=
          if signal.to in s.peers then Forward(s1, s.peers[signal.to], item)
          else
            var s' := Prune(s1, pruneNow);
            s'.(pending := s'.pending[signal.to := Waiting(s'.pending, signal.to) + [item]]);
        s2.(output := s2.output + [SignalAck(socket, signal.id)])
    case Ended(socket) => s.(ended := s.ended + {socket})
    case Closed(socket) =>
      var t := s.(closed := s.closed + {socket});
      if socket in s.current && s.current[socket] in s.peers && s.peers[s.current[socket]] == socket
      then t.(peers := s.peers - {s.current[socket]})
      else t
  }

  function Run(events: seq<Event>): State {
    if events == [] then Init else Step(Run(events[..|events| - 1]), events[|events| - 1])
  }

  // ---------- What each peer is owed ----------

  /** Numbers of the accepted signals for `p` that have not been given up, in order of acceptance. */
  function Outstanding(accepted: seq<Signal>, dropped: set<nat>, p: PeerId): seq<nat> {
    if accepted == [] then []
    else
      var n := |accepted| - 1;
      Outstanding(accepted[..n], dropped, p) + (if accepted[n].to == p && n !in dropped then [n] else [])
  }

  /** Numbers of the signals written for `p`, in order of writing. */
  function Received(output: seq<Output>, p: PeerId): seq<nat> {
    if output == [] then []
    else
      var last := output[|output| - 1];
      Received(output[..|output| - 1], p) + (if last.SignalOut? && last.peer == p then [last.number] else [])
  }

  function Numbers(q: seq<Item>): (r: seq<nat>)
    ensures |r| == |q| && forall i | 0 <= i < |q| :: r[i] == q[i].number
  {
    seq(|q|, i requires 0 <= i < |q| => q[i].number)
  }

  predicate ItemsFor(q: seq<Item>, accepted: seq<Signal>, p: PeerId) {
    forall i | 0 <= i < |q| :: q[i].number < |accepted| && accepted[q[i].number] == q[i].signal && q[i].signal.to == p
  }

  predicate Justified(accepted: seq<Signal>, n: nat, r: Reason) {
    n < |accepted| && match r case Pruned(at) => !Fresh(accepted[n], at) case Oversize => !Fits(accepted[n])
  }

  /** The items still to be received by `p`: those in flight if they are for `p`, then its queue. */
  function Later(s: State, target: PeerId, inFlight: seq<Item>, p: PeerId): seq<Item> {
    (if p == target then inFlight else []) + Waiting(s.pending, p)
  }

  /** What is owed to `p` has been received, is in flight to `target`, or waits in its queue, in this order. */
  predicate Balanced(s: State, target: PeerId, inFlight: seq<Item>, p: PeerId) {
    Outstanding(s.accepted, s.dropped.Keys, p) == Received(s.output, p) + Numbers(Later(s, target, inFlight, p))
  }

  predicate Queues(s: State) {
    && (forall p | p in s.pending :: s.pending[p] != [] && ItemsFor(s.pending[p], s.accepted, p))
    && (forall n | n in s.dropped :: Justified(s.accepted, n, s.dropped[n]))
  }

  ghost predicate Inv(s: State) {
    && s.peers.Keys !! s.pending.Keys
    && Queues(s)
    && (forall p :: Balanced(s, "", [], p))
  }

  // ---------- Filtering by number ----------

  function Without(x: seq<nat>, d: set<nat>): seq<nat> {
    if x == [] then [] else (if x[0] in d then [] else [x[0]]) + Without(x[1..], d)
  }

  lemma WithoutCons(x: nat, rest: seq<nat>, d: set<nat>)
    ensures Without([x] + rest, d) == (if x in d then [] else [x]) + Without(rest, d)
  {
    assert ([x] + rest)[1..] == rest;
  }

  lemma Associate(a: seq<nat>, b: seq<nat>, c: seq<nat>)
    ensures a + (b + c) == (a + b) + c
  {
  }

  lemma {:induction false} WithoutAppend(x: seq<nat>, y: seq<nat>, d: set<nat>)
    ensures Without(x + y, d) == Without(x, d) + Without(y, d)
  {
    assert Without([], d) == [];
    hide Without;
    if x == [] {
      assert x + y == y && [] + Without(y, d) == Without(y, d);
    } else {
      var h, t := x[0], x[1..];
      WithoutAppend(t, y, d);
      WithoutCons(h, t, d);
      WithoutCons(h, t + y, d);
      assert x == [h] + t && x + y == [h] + (t + y);
      Associate(if h in d then [] else [h], Without(t, d), Without(y, d));
    }
  }

  lemma {:induction false} WithoutNone(x: seq<nat>, d: set<nat>)
    requires forall i | 0 <= i < |x| :: x[i] !in d
    ensures Without(x, d) == x
  {
    if x != [] {
      WithoutNone(x[1..], d);
    }
  }

  lemma WithoutHead(x: seq<nat>)
    requires x != [] && forall i | 0 < i < |x| :: x[i] != x[0]
    ensures Without(x, {x[0]}) == x[1..]
  {
    WithoutNone(x[1..], {x[0]});
  }

  /** Increasing numbers of accepted signals for `p` that are not dropped. */
  predicate OwedNumbers(r: seq<nat>, accepted: seq<Signal>, dropped: set<nat>, p: PeerId) {
    && (forall i | 0 <= i < |r| :: r[i] < |accepted| && accepted[r[i]].to == p && r[i] !in dropped)
    && (forall i, j | 0 <= i < j < |r| :: r[i] < r[j])
  }

  /** The outstanding numbers are increasing, so none occurs twice, and they are signals for `p`. */
  lemma {:induction false} OutstandingMembers(accepted: seq<Signal>, dropped: set<nat>, p: PeerId)
    ensures OwedNumbers(Outstanding(accepted, dropped, p), accepted, dropped, p)
  {
    if accepted != [] {
      var n := |accepted| - 1;
      OutstandingMembers(accepted[..n], dropped, p);
    }
  }

  lemma {:induction false} OutstandingDrop(accepted: seq<Signal>, dropped: set<nat>, more: set<nat>, p: PeerId)
    ensures Outstanding(accepted, dropped + more, p) == Without(Outstanding(accepted, dropped, p), more)
  {
    if accepted != [] {
      var n := |accepted| - 1;
      OutstandingDrop(accepted[..n], dropped, more, p);
      var front := Outstanding(accepted[..n], dropped, p);
      var last: seq<nat> := if accepted[n].to == p && n !in dropped then [n] else [];
      WithoutAppend(front, last, more);
    }
  }

  lemma {:induction false} FreshNumbers(q: seq<Item>, stale: set<nat>, now: int)
    requires forall i | 0 <= i < |q| :: q[i].number in stale <==> !Fresh(q[i].signal, now)
    ensures Without(Numbers(q), stale) == Numbers(FreshOf(q, now))
  {
    if q != [] {
      FreshNumbers(q[1..], stale, now);
      assert Numbers(q) == [q[0].number] + Numbers(q[1..]);
      var head: seq<Item> := if Fresh(q[0].signal, now) then [q[0]] else [];
      assert Numbers(head + FreshOf(q[1..], now)) == Numbers(head) + Numbers(FreshOf(q[1..], now));
    }
  }

  lemma {:induction false} FreshItems(q: seq<Item>, accepted: seq<Signal>, p: PeerId, now: int)
    requires ItemsFor(q, accepted, p)
    ensures ItemsFor(FreshOf(q, now), accepted, p)
  {
    if q != [] {
      assert ItemsFor(q[1..], accepted, p);
      FreshItems(q[1..], accepted, p, now);
    }
  }

  // ---------- Pruning ----------

  /** Nothing already received for `p` is among the numbers of `later`. */
  lemma ReceivedApart(s: State, later: seq<nat>, before: seq<nat>, p: PeerId)
    requires Outstanding(s.accepted, s.dropped.Keys, p) == before + later
    ensures forall i, j | 0 <= i < |before| && 0 <= j < |later| :: before[i] < later[j]
    ensures forall i, j | 0 <= i < j < |later| :: later[i] < later[j]
    ensures forall i | 0 <= i < |before| :: before[i] < |s.accepted| && s.accepted[before[i]].to == p
  {
    OutstandingMembers(s.accepted, s.dropped.Keys, p);
    var r := before + later;
    forall i, j | 0 <= i < |before| && 0 <= j < |later| ensures before[i] < later[j] {
      assert r[i] == before[i] && r[|before| + j] == later[j];
    }
    forall i, j | 0 <= i < j < |later| ensures later[i] < later[j] {
      assert r[|before| + i] == later[i] && r[|before| + j] == later[j];
    }
    forall i | 0 <= i < |before| ensures before[i] < |s.accepted| && s.accepted[before[i]].to == p {
      assert r[i] == before[i];
    }
  }

  /** In a queue, the stale numbers are exactly those of its own signals that are no longer fresh. */
  lemma StaleInQueue(s: State, p: PeerId, now: int)
    requires Queues(s)
    ensures var q := Waiting(s.pending, p);
            forall i | 0 <= i < |q| :: q[i].number in StaleNumbers(s.pending, now) <==> !Fresh(q[i].signal, now)
  {
  }

  /** What has been received is not in any queue. */
  lemma ReceivedNotStale(s: State, p: PeerId, now: int)
    requires Queues(s) && Balanced(s, "", [], p)
    ensures forall i | 0 <= i < |Received(s.output, p)| :: Received(s.output, p)[i] !in StaleNumbers(s.pending, now)
  {
    hide Outstanding, Received, Fresh;
    var q, before := Waiting(s.pending, p), Received(s.output, p);
    assert [] + q == q;
    ReceivedApart(s, Numbers(q), before, p);
    forall i | 0 <= i < |before| ensures before[i] !in StaleNumbers(s.pending, now) {
      forall r, j | r in s.pending && 0 <= j < |s.pending[r]| ensures s.pending[r][j].number != before[i] {
        assert ItemsFor(s.pending[r], s.accepted, r);
        if r == p {
          assert Numbers(q)[j] == q[j].number;
        }
      }
    }
  }

  lemma PruneBalanced(s: State, p: PeerId, now: int)
    requires Queues(s) && Balanced(s, "", [], p)
    ensures Balanced(Prune(s, now), "", [], p)
  {
    hide Outstanding, Received, Without, Queues;
    var q, before, stale := Waiting(s.pending, p), Received(s.output, p), StaleNumbers(s.pending, now);
    assert [] + q == q;
    ReceivedApart(s, Numbers(q), before, p);
    OutstandingDrop(s.accepted, s.dropped.Keys, stale, p);
    assert Prune(s, now).dropped.Keys == s.dropped.Keys + stale;
    WithoutAppend(before, Numbers(q), stale);
    ReceivedNotStale(s, p, now);
    WithoutNone(before, stale);
    StaleInQueue(s, p, now);
    FreshNumbers(q, stale, now);
    assert Waiting(Prune(s, now).pending, p) == FreshOf(q, now);
    assert [] + FreshOf(q, now) == FreshOf(q, now);
  }

  lemma PruneQueues(s: State, now: int)
    requires Queues(s)
    ensures Queues(Prune(s, now))
  {
    var t := Prune(s, now);
    forall p | p in t.pending ensures t.pending[p] != [] && ItemsFor(t.pending[p], s.accepted, p) {
      FreshItems(s.pending[p], s.accepted, p, now);
    }
  }

  // ---------- Forwarding ----------

  lemma ReceivedAppend(output: seq<Output>, o: Output, p: PeerId)
    ensures Received(output + [o], p) == Received(output, p) + (if o.SignalOut? && o.peer == p then [o.number] else [])
  {
    assert (output + [o])[..|output|] == output;
  }

  lemma LaterHead(s: State, target: PeerId, q: seq<Item>)
    requires q != []
    ensures Numbers(Later(s, target, q, target)) == [q[0].number] + Numbers(Later(s, target, q[1..], target))
  {
  }

  lemma ForwardFits(s: State, socket: Socket, q: seq<Item>, target: PeerId, p: PeerId)
    requires q != [] && q[0].signal.to == target && Fits(q[0].signal)
    requires Balanced(s, target, q, p)
    ensures Balanced(Forward(s, socket, q[0]), target, q[1..], p)
  {
    hide Outstanding, Received;
    ReceivedAppend(s.output, SignalOut(socket, target, q[0].number), p);
    if p == target {
      LaterHead(s, target, q);
    }
  }

  lemma ForwardOversize(s: State, socket: Socket, q: seq<Item>, target: PeerId, p: PeerId)
    requires q != [] && ItemsFor(q, s.accepted, target) && !Fits(q[0].signal)
    requires Balanced(s, target, q, p)
    ensures Balanced(Forward(s, socket, q[0]), target, q[1..], p)
  {
    hide Outstanding, Received, Without, Waiting, Fits;
    var n := q[0].number;
    var before, later := Received(s.output, p), Numbers(Later(s, target, q, p));
    OutstandingDrop(s.accepted, s.dropped.Keys, {n}, p);
    assert Forward(s, socket, q[0]).dropped.Keys == s.dropped.Keys + {n};
    if p == target {
      LaterHead(s, target, q);
      ReceivedApart(s, later, before, p);
      assert later[0] == n;
      WithoutAppend(before, later, {n});
      WithoutNone(before, {n});
      WithoutHead(later);
    } else {
      OutstandingMembers(s.accepted, s.dropped.Keys, p);
      WithoutNone(before + later, {n});
    }
  }

  lemma {:induction false} ForwardAllBalanced(s: State, socket: Socket, q: seq<Item>, target: PeerId)
    requires ItemsFor(q, s.accepted, target) && Queues(s)
    requires forall p :: Balanced(s, target, q, p)
    ensures var t := ForwardAll(s, socket, q);
            && Queues(t) && (forall p :: Balanced(t, "", [], p))
            && t.peers == s.peers && t.pending == s.pending && t.accepted == s.accepted && t.current == s.current
    decreases |q|
  {
    if q != [] {
      var t := Forward(s, socket, q[0]);
      forall p ensures Balanced(t, target, q[1..], p) {
        assert Balanced(s, target, q, p);
        if Fits(q[0].signal) {
          ForwardFits(s, socket, q, target, p);
        } else {
          ForwardOversize(s, socket, q, target, p);
        }
      }
      ForwardAllBalanced(t, socket, q[1..], target);
    } else {
      forall p ensures Balanced(s, "", [], p) {
        assert Balanced(s, target, q, p) && Later(s, target, [], p) == Later(s, "", [], p);
      }
    }
  }

  // ---------- Acceptance ----------

  lemma OutstandingAccept(accepted: seq<Signal>, signal: Signal, dropped: set<nat>, p: PeerId)
    requires |accepted| !in dropped
    ensures Outstanding(accepted + [signal], dropped, p)
         == Outstanding(accepted, dropped, p) + (if signal.to == p then [|accepted|] else [])
  {
    assert (accepted + [signal])[..|accepted|] == accepted;
  }

  lemma AcceptQueues(s: State, signal: Signal)
    requires Queues(s)
    ensures Queues(s.(accepted := s.accepted + [signal])) && |s.accepted| !in s.dropped
  {
    var t := s.(accepted := s.accepted + [signal]);
    forall p | p in t.pending ensures ItemsFor(t.pending[p], t.accepted, p) {
      assert ItemsFor(s.pending[p], s.accepted, p);
    }
    assert |s.accepted| in s.dropped ==> Justified(s.accepted, |s.accepted|, s.dropped[|s.accepted|]);
    forall n | n in t.dropped ensures Justified(t.accepted, n, t.dropped[n]) {
      assert Justified(s.accepted, n, s.dropped[n]);
    }
  }

  lemma OutputOnly(s: State, o: Output)
    requires Inv(s) && !o.SignalOut?
    ensures Inv(s.(output := s.output + [o]))
  {
    var t := s.(output := s.output + [o]);
    forall p ensures Balanced(t, "", [], p) {
      ReceivedAppend(s.output, o, p);
      assert Balanced(s, "", [], p);
    }
  }

  /** A registration first prunes, then takes the peer's queue out to forward it. */
  lemma PrunedForPeer(s: State, peer: PeerId, now: int)
    requires Queues(s) && forall p :: Balanced(s, "", [], p)
    ensures var s1 := Prune(s, now);
            var q := Waiting(s1.pending, peer);
            var s2 := s1.(pending := s1.pending - {peer});
            Queues(s2) && ItemsFor(q, s2.accepted, peer) && forall p :: Balanced(s2, peer, q, p)
  {
    PruneQueues(s, now);
    var s1 := Prune(s, now);
    hide Prune, FreshOf, ItemsFor;
    assert Queues(s1);
    TakenOut(s1, peer);
    forall p ensures Balanced(s1.(pending := s1.pending - {peer}), peer, Waiting(s1.pending, peer), p) {
      assert Balanced(s, "", [], p);
      PruneBalanced(s, p, now);
      hide Balanced, Queues;
      TakenBalanced(s1, peer, p);
    }
  }

  lemma TakenOut(s: State, peer: PeerId)
    requires Queues(s)
    ensures Queues(s.(pending := s.pending - {peer})) && ItemsFor(Waiting(s.pending, peer), s.accepted, peer)
  {
    hide Justified;
  }

  lemma TakenBalanced(s: State, peer: PeerId, p: PeerId)
    requires Balanced(s, "", [], p)
    ensures Balanced(s.(pending := s.pending - {peer}), peer, Waiting(s.pending, peer), p)
  {
    assert Later(s.(pending := s.pending - {peer}), peer, Waiting(s.pending, peer), p) == Later(s, "", [], p);
    hide Outstanding, Received;
  }

  lemma HelloKeeps(s: State, socket: Socket, peer: PeerId, now: int)
    requires Inv(s)
    ensures Inv(Step(s, Hello(socket, peer, now)))
  {
    hide Balanced, Queues, Prune, ForwardAll, ItemsFor;
    var s0 := s.(peers := s.peers[peer := socket]);
    PeersApart(s, s0.peers);
    PrunedForPeer(s0, peer, now);
    var s1 := Prune(s0, now);
    var s2 := s1.(pending := s1.pending - {peer});
    ForwardAllBalanced(s2, socket, Waiting(s1.pending, peer), peer);
    var s3 := ForwardAll(s2, socket, Waiting(s1.pending, peer));
    PrunedTables(s0, now);
    assert Inv(s3);
    OutputOnly(s3, HelloAck(socket, peer));
    InvIgnoresCurrent(s3.(output := s3.output + [HelloAck(socket, peer)]), Step(s, Hello(socket, peer, now)).current);
  }

  lemma PrunedTables(s: State, now: int)
    ensures Prune(s, now).peers == s.peers && Prune(s, now).pending.Keys <= s.pending.Keys
    ensures Prune(s, now).current == s.current && Prune(s, now).accepted == s.accepted
            && Prune(s, now).output == s.output
  {
  }

  lemma PeersApart(s: State, peers: map<PeerId, Socket>)
    requires Queues(s) && forall p :: Balanced(s, "", [], p)
    ensures var t := s.(peers := peers); Queues(t) && forall p :: Balanced(t, "", [], p)
  {
    forall p ensures Balanced(s.(peers := peers), "", [], p) {
      assert Balanced(s, "", [], p);
    }
  }

  lemma InvIgnoresCurrent(s: State, current: map<Socket, PeerId>)
    requires Inv(s)
    ensures Inv(s.(current := current))
  {
    forall p ensures Balanced(s.(current := current), "", [], p) {
      assert Balanced(s, "", [], p);
    }
  }

  lemma ForwardNow(s: State, signal: Signal)
    requires Inv(s) && signal.to in s.peers
    ensures Inv(Forward(s.(accepted := s.accepted + [signal]), s.peers[signal.to], Item(|s.accepted|, signal)))
  {
    var item, s1 := Item(|s.accepted|, signal), s.(accepted := s.accepted + [signal]);
    AcceptQueues(s, signal);
    forall p ensures Balanced(s1, signal.to, [item], p) {
      assert Balanced(s, "", [], p);
      OutstandingAccept(s.accepted, signal, s.dropped.Keys, p);
      assert p == signal.to ==> Waiting(s.pending, p) == [];
      assert Numbers([item]) == [item.number] && [item] + [] == [item]
        && [] + Waiting(s.pending, p) == Waiting(s.pending, p);
    }
    ForwardAllBalanced(s1, s.peers[signal.to], [item], signal.to);
    var t := Forward(s1, s.peers[signal.to], item);
    assert [item][1..] == [] && ForwardAll(t, s.peers[signal.to], []) == t;
  }

  lemma QueueLater(s: State, signal: Signal)
    requires Inv(s) && signal.to !in s.peers
    ensures var q := Waiting(s.pending, signal.to) + [Item(|s.accepted|, signal)];
            Inv(s.(accepted := s.accepted + [signal], pending := s.pending[signal.to := q]))
  {
    var item := Item(|s.accepted|, signal);
    var q := Waiting(s.pending, signal.to) + [item];
    var t := s.(accepted := s.accepted + [signal], pending := s.pending[signal.to := q]);
    AcceptQueues(s, signal);
    forall p ensures Balanced(t, "", [], p) {
      QueueBalanced(s, signal, p);
    }
  }

  lemma QueueBalanced(s: State, signal: Signal, p: PeerId)
    requires Balanced(s, "", [], p) && |s.accepted| !in s.dropped
    ensures var q := Waiting(s.pending, signal.to) + [Item(|s.accepted|, signal)];
            Balanced(s.(accepted := s.accepted + [signal], pending := s.pending[signal.to := q]), "", [], p)
  {
    hide Outstanding, Received;
    var item := Item(|s.accepted|, signal);
    var w := Waiting(s.pending, p);
    OutstandingAccept(s.accepted, signal, s.dropped.Keys, p);
    assert [] + w == w && [] + (w + [item]) == w + [item];
    assert Numbers(w + [item]) == Numbers(w) + [item.number];
  }

  lemma SignalKeeps(s: State, socket: Socket, signal: Signal, now: int, pruneNow: int)
    requires Inv(s)
    ensures Inv(Step(s, SignalIn(socket, signal, now, pruneNow)))
  {
    if signal.expiresAt < now {
    } else if socket !in s.current || signal.from != s.current[socket] {
      OutputOnly(s, SenderMismatch(socket));
    } else if signal.to in s.peers {
      ForwardNow(s, signal);
      OutputOnly(Forward(s.(accepted := s.accepted + [signal]), s.peers[signal.to], Item(|s.accepted|, signal)),
                 SignalAck(socket, signal.id));
    } else {
      var s' := Prune(s, pruneNow);
      PruneQueues(s, pruneNow);
      forall p ensures Balanced(s', "", [], p) {
        PruneBalanced(s, p, pruneNow);
      }
      QueueLater(s', signal);
      var q := Waiting(s'.pending, signal.to) + [Item(|s.accepted|, signal)];
      OutputOnly(s'.(accepted := s.accepted + [signal], pending := s'.pending[signal.to := q]),
                 SignalAck(socket, signal.id));
    }
  }

  lemma SocketOnly(s: State, e: Event)
    requires Inv(s) && (e.Ended? || e.Closed?)
    ensures Inv(Step(s, e))
  {
    var t := Step(s, e);
    assert t.pending == s.pending && t.output == s.output && t.accepted == s.accepted && t.dropped == s.dropped;
    assert t.peers.Keys <= s.peers.Keys;
    hide Step;
    forall p ensures Balanced(t, "", [], p) {
      assert Balanced(s, "", [], p);
      assert Later(t, "", [], p) == Later(s, "", [], p);
    }
  }

  lemma StepKeeps(s: State, e: Event)
    requires Inv(s)
    ensures Inv(Step(s, e))
  {
    match e
    case Hello(socket, peer, now) => HelloKeeps(s, socket, peer, now);
    case SignalIn(socket, signal, now, pruneNow) => SignalKeeps(s, socket, signal, now, pruneNow);
    case Ended(socket) => SocketOnly(s, e);
    case Closed(socket) => SocketOnly(s, e);
  }

  /** Over every sequence of events. */
  lemma {:induction false} RunKeeps(events: seq<Event>)
    ensures Inv(Run(events))
  {
    if events == [] {
      forall p ensures Balanced(Init, "", [], p) {
        assert Numbers([] + Waiting(Init.pending, p)) == [];
      }
    } else {
      RunKeeps(events[..|events| - 1]);
      StepKeeps(Run(events[..|events| - 1]), events[|events| - 1]);
    }
  }

  lemma {:induction false} OutstandingComplete(accepted: seq<Signal>, dropped: set<nat>, p: PeerId, n: nat)
    ensures n in Outstanding(accepted, dropped, p) <==> n < |accepted| && accepted[n].to == p && n !in dropped
  {
    if accepted != [] {
      OutstandingComplete(accepted[..|accepted| - 1], dropped, p, n);
    }
  }

  predicate Increasing(r: seq<nat>) {
    forall i, j | 0 <= i < j < |r| :: r[i] < r[j]
  }

  /** A step only adds to what has been written, and writes signals only to the sockets their peers are registered on
      after it. */
  predicate WritesToRegistered(s: State, t: State) {
    && s.output <= t.output
    && forall o <- t.output[|s.output|..] :: o.SignalOut? ==> o.peer in t.peers && o.socket == t.peers[o.peer]
  }

  lemma RunWrites(events: seq<Event>)
    ensures forall k | 0 <= k < |events| ::
              WritesToRegistered(Run(events[..k]), Step(Run(events[..k]), events[k]))
  {
    hide Run, Step, Inv, WritesToRegistered;
    forall k | 0 <= k < |events| ensures WritesToRegistered(Run(events[..k]), Step(Run(events[..k]), events[k])) {
      RunKeeps(events[..k]);
      StepOutputs(Run(events[..k]), events[k]);
    }
  }

  /** After any run: what is written for a peer is in acceptance order, at most once, and nothing is missing
      without a reason; every write was made to the socket the peer was registered on. */
  lemma DeliveryGuarantee(events: seq<Event>, p: PeerId)
    ensures var s := Run(events);
            var received, waiting := Received(s.output, p), Numbers(Waiting(s.pending, p));
            && Increasing(received + waiting)
            && (p in s.peers ==> waiting == [])
            && (forall n: nat ::
                  n in received + waiting <==> n < |s.accepted| && s.accepted[n].to == p && n !in s.dropped)
            && (forall n | n in s.dropped :: Justified(s.accepted, n, s.dropped[n]))
    ensures forall k | 0 <= k < |events| ::
              WritesToRegistered(Run(events[..k]), Step(Run(events[..k]), events[k]))
  {
    RunWrites(events);
    RunKeeps(events);
    hide WritesToRegistered, Run, Step, Outstanding, Received;
    var s := Run(events);
    var received, waiting := Received(s.output, p), Numbers(Waiting(s.pending, p));
    assert Balanced(s, "", [], p);
    assert Later(s, "", [], p) == Waiting(s.pending, p);
    OutstandingMembers(s.accepted, s.dropped.Keys, p);
    forall n: nat
      ensures n in received + waiting <==> n < |s.accepted| && s.accepted[n].to == p && n !in s.dropped
    {
      OutstandingComplete(s.accepted, s.dropped.Keys, p, n);
    }
  }

  // ---------- What is accepted ----------

  /** The last name a socket said hello with, the empty one not counted. */
  function LastName(events: seq<Event>, socket: Socket): Option<PeerId> {
    if events == [] then None
    else
      var e := events[|events| - 1];
      if e.Hello? && e.socket == socket && e.peer != "" then Some(e.peer)
      else LastName(events[..|events| - 1], socket)
  }

  lemma StepCurrent(s: State, e: Event)
    ensures Step(s, e).current == if e.Hello? && e.peer != "" then s.current[e.socket := e.peer] else s.current
  {
    StepTables(s, e);
  }

  lemma {:induction false} RunCurrent(events: seq<Event>, socket: Socket)
    ensures var name := LastName(events, socket);
            if name.None? then socket !in Run(events).current
            else socket in Run(events).current && Run(events).current[socket] == name.value
  {
    if events != [] {
      hide Step;
      RunCurrent(events[..|events| - 1], socket);
      StepCurrent(Run(events[..|events| - 1]), events[|events| - 1]);
    }
  }

  /** After any run, a signal is accepted if and only if it has not expired and names the peer its socket last said
      hello as. It is then acknowledged, and written to its peer if that is registered, or put behind what waits for
      it. A signal that names another peer is answered as such; an expired one is not answered. */
  lemma AcceptedIff(events: seq<Event>, socket: Socket, signal: Signal, now: int, pruneNow: int)
    ensures var s, t := Run(events), Step(Run(events), SignalIn(socket, signal, now, pruneNow));
            var named, n := LastName(events, socket) == Some(signal.from), |s.accepted|;
            && (t.accepted == s.accepted + [signal] <==> now <= signal.expiresAt && named)
            && (now <= signal.expiresAt && named ==>
                  && t.output[|t.output| - 1] == SignalAck(socket, signal.id)
                  && (signal.to in s.peers && signal.frameBytes <= 262144 ==>
                        t.output == s.output + [SignalOut(s.peers[signal.to], signal.to, n)]
                                    + [SignalAck(socket, signal.id)])
                  && (signal.to !in s.peers ==>
                        var q := Waiting(t.pending, signal.to); q != [] && q[|q| - 1] == Item(n, signal)))
            && (now <= signal.expiresAt && !named ==> t == s.(output := s.output + [SenderMismatch(socket)]))
            && (signal.expiresAt < now ==> t == s)
  {
    RunCurrent(events, socket);
    var s := Run(events);
    PrunedTables(s.(accepted := s.accepted + [signal]), pruneNow);
    assert |s.accepted + [signal]| != |s.accepted|;
    hide Run, Prune;
  }

  /** After any run, a hello registers its peer on its socket and is acknowledged last; a close unregisters the last
      peer the socket named, if that is registered on it, and writes nothing; nothing else changes registrations. */
  lemma RegisteredIff(events: seq<Event>, e: Event)
    ensures var s, t := Run(events), Step(Run(events), e);
            && (e.Hello? ==> t.peers == s.peers[e.peer := e.socket] && t.output != []
                             && t.output[|t.output| - 1] == HelloAck(e.socket, e.peer))
            && (e.Closed? ==>
                  var name := LastName(events, e.socket);
                  && t.peers == (if name.Some? && name.value in s.peers && s.peers[name.value] == e.socket
                                 then s.peers - {name.value} else s.peers)
                  && t.output == s.output)
            && (e.SignalIn? ==> t.peers == s.peers)
            && (e.Ended? ==> t.peers == s.peers && t.output == s.output)
  {
    if e.Closed? {
      RunCurrent(events, e.socket);
    }
    StepTables(Run(events), e);
    hide Run, LastName, Prune, ForwardAll, LostBy;
  }

  // ---------- How long a signal waits ----------

  /** The clock reading at which an event prunes the queues, if it does. */
  function PruneClock(s: State, e: Event): Option<int> {
    match e
    case Hello(_, _, now) => Some(now)
    case SignalIn(socket, signal, now, pruneNow) =>
      if Accepts(s, socket, signal, now) && signal.to !in s.peers then Some(pruneNow) else None
    case Ended(_) => None
    case Closed(_) => None
  }

  /** Two minutes after it was made, or after the time it names itself, whichever comes first, a signal is too old. */
  predicate TooOld(signal: Signal, now: int) { signal.expiresAt < now || signal.createdAt + 120000 < now }

  lemma {:induction false} FreshIs(q: seq<Item>, now: int)
    ensures forall item :: item in FreshOf(q, now) <==> item in q && !TooOld(item.signal, now)
  {
    if q != [] {
      FreshIs(q[1..], now);
      assert q == [q[0]] + q[1..];
    }
  }

  lemma {:induction false} ForwardAllWrites(s: State, socket: Socket, q: seq<Item>, item: Item)
    ensures var t := ForwardAll(s, socket, q);
            && s.output <= t.output
            && (item in q && item.signal.frameBytes <= 262144 ==>
                  SignalOut(socket, item.signal.to, item.number) in t.output)
    decreases |q|
  {
    if q != [] {
      var t := Forward(s, socket, q[0]);
      ForwardAllWrites(t, socket, q[1..], item);
      if item == q[0] && Fits(item.signal) {
        assert SignalOut(socket, item.signal.to, item.number) in t.output;
      }
    }
  }

  /** After any run, a signal that waits for `p` still waits after the next event if and only if that event is not a
      hello of `p` and does not prune at a time for which the signal is too old. At a hello of `p` it is written to
      that socket, if it is not too old and its frame has no more than 262144 bytes. */
  lemma WaitsIff(events: seq<Event>, e: Event, p: PeerId, item: Item)
    requires item in Waiting(Run(events).pending, p)
    ensures var s, t := Run(events), Step(Run(events), e);
            var clock := PruneClock(s, e);
            && (item in Waiting(t.pending, p) <==>
                  !(e.Hello? && e.peer == p) && (clock.Some? ==> !TooOld(item.signal, clock.value)))
            && (e.Hello? && e.peer == p && !TooOld(item.signal, e.now) && item.signal.frameBytes <= 262144 ==>
                  SignalOut(e.socket, p, item.number) in t.output)
  {
    var s := Run(events);
    RunKeeps(events);
    QueueItems(s, p, item);
    hide Inv, Run, TooOld, Waiting, Step, Accepts;
    match e
    case Hello(socket, peer, now) => HelloWaits(s, socket, peer, now, p, item);
    case SignalIn(socket, signal, now, pruneNow) =>
      SignalWaits(s, socket, signal, now, pruneNow, p, item);
    case Ended(_) => SocketWaits(s, e);
    case Closed(_) => SocketWaits(s, e);
  }

  lemma SocketWaits(s: State, e: Event)
    requires e.Ended? || e.Closed?
    ensures Step(s, e).pending == s.pending
  {
  }

  lemma QueueItems(s: State, p: PeerId, item: Item)
    requires Inv(s) && item in Waiting(s.pending, p)
    ensures item.number < |s.accepted| && item.signal.to == p
  {
    assert ItemsFor(s.pending[p], s.accepted, p);
  }

  lemma SignalWaits(s: State, socket: Socket, signal: Signal, now: int, pruneNow: int, p: PeerId, item: Item)
    requires item in Waiting(s.pending, p) && item.number < |s.accepted|
    ensures var t := Step(s, SignalIn(socket, signal, now, pruneNow));
            item in Waiting(t.pending, p) <==>
            (Accepts(s, socket, signal, now) && signal.to !in s.peers ==> !TooOld(item.signal, pruneNow))
  {
    WaitingPruned(s.pending, p, pruneNow);
    FreshIs(Waiting(s.pending, p), pruneNow);
    hide FreshOf, PrunedQueues, TooOld, StaleNumbers, Fits;
    if Accepts(s, socket, signal, now) && signal.to !in s.peers {
      var q := Waiting(PrunedQueues(s.pending, pruneNow), p);
      var added := Item(|s.accepted|, signal);
      var t := Step(s, SignalIn(socket, signal, now, pruneNow));
      assert Waiting(t.pending, p) == if signal.to == p then q + [added] else q;
    }
  }

  lemma HelloWaits(s: State, socket: Socket, peer: PeerId, now: int, p: PeerId, item: Item)
    requires item in Waiting(s.pending, p) && item.signal.to == p
    ensures var t := Step(s, Hello(socket, peer, now));
            && (item in Waiting(t.pending, p) <==> peer != p && !TooOld(item.signal, now))
            && (peer == p && !TooOld(item.signal, now) && item.signal.frameBytes <= 262144 ==>
                  SignalOut(socket, p, item.number) in t.output)
  {
    FreshIs(Waiting(s.pending, p), now);
    WaitingPruned(s.pending, p, now);
    var s1 := Prune(s.(peers := s.peers[peer := socket]), now);
    var q := Waiting(s1.pending, peer);
    var s2 := s1.(pending := s1.pending - {peer});
    ForwardAllPending(s2, socket, q);
    ForwardAllWrites(s2, socket, q, item);
    hide FreshOf, PrunedQueues, TooOld, ForwardAll, StaleNumbers;
  }

  /** The clock showed `at` at a hello, or when a signal was queued. */
  ghost predicate ClockRead(events: seq<Event>, at: int) {
    exists e <- events :: (e.Hello? && e.now == at) || (e.SignalIn? && e.pruneNow == at)
  }

  lemma ClockReadMore(events: seq<Event>, e: Event, at: int)
    ensures ClockRead(events, at) ==> ClockRead(events + [e], at)
    ensures (e.Hello? && e.now == at) || (e.SignalIn? && e.pruneNow == at) ==> ClockRead(events + [e], at)
  {
    assert e in events + [e] && forall x <- events :: x in events + [e];
  }

  ghost predicate DropsRead(events: seq<Event>, dropped: map<nat, Reason>) {
    forall n | n in dropped && dropped[n].Pruned? :: ClockRead(events, dropped[n].at)
  }

  lemma DropsReadMore(events: seq<Event>, e: Event, s: State)
    requires DropsRead(events, s.dropped)
    ensures DropsRead(events + [e], Step(s, e).dropped)
  {
    StepDrops(s, e);
    hide Step, ClockRead;
    var t := Step(s, e);
    forall n | n in t.dropped && t.dropped[n].Pruned? ensures ClockRead(events + [e], t.dropped[n].at) {
      ClockReadMore(events, e, t.dropped[n].at);
    }
  }

  lemma {:induction false} RunDrops(events: seq<Event>)
    ensures DropsRead(events, Run(events).dropped)
  {
    if events != [] {
      hide Step, DropsRead;
      var front, last := events[..|events| - 1], events[|events| - 1];
      RunDrops(front);
      assert events == front + [last];
      DropsReadMore(front, last, Run(front));
    }
  }

  /** In every run, a signal given up as too old was past its own expiry or two minutes old, by the clock of one of
      the events. */
  lemma PrunedOnlyTooOld(events: seq<Event>)
    ensures var s := Run(events);
            forall n | n in s.dropped && s.dropped[n].Pruned? ::
              var at := s.dropped[n].at;
              && n < |s.accepted| && (s.accepted[n].expiresAt < at || s.accepted[n].createdAt + 120000 < at)
              && ClockRead(events, at)
  {
    RunKeeps(events);
    ReasonsJustified(Run(events));
    RunDrops(events);
    hide Run, Inv, ClockRead;
  }

  lemma ReasonsJustified(s: State)
    requires Inv(s)
    ensures forall n | n in s.dropped && s.dropped[n].Pruned? ::
              n < |s.accepted| && TooOld(s.accepted[n], s.dropped[n].at)
  {
    assert forall n | n in s.dropped :: Justified(s.accepted, n, s.dropped[n]);
    hide Balanced;
  }

  lemma StepDrops(s: State, e: Event)
    ensures var t := Step(s, e);
            forall n | n in t.dropped && t.dropped[n].Pruned? ::
              || (n in s.dropped && s.dropped[n] == t.dropped[n])
              || (e.Hello? && t.dropped[n].at == e.now) || (e.SignalIn? && t.dropped[n].at == e.pruneNow)
  {
    if e.Hello? {
      var s1 := Prune(s.(peers := s.peers[e.peer := e.socket]), e.now);
      ForwardAllDrops(s1.(pending := s1.pending - {e.peer}), e.socket, Waiting(s1.pending, e.peer));
      hide FreshOf, PrunedQueues, ForwardAll;
    } else {
      hide FreshOf, PrunedQueues;
    }
  }

  lemma {:induction false} ForwardAllDrops(s: State, socket: Socket, q: seq<Item>)
    ensures var t := ForwardAll(s, socket, q);
            forall n | n in t.dropped && t.dropped[n].Pruned? :: n in s.dropped && s.dropped[n] == t.dropped[n]
    decreases |q|
  {
    if q != [] {
      ForwardAllDrops(Forward(s, socket, q[0]), socket, q[1..]);
    }
  }

  // ---------- What is lost ----------

  /** The numbers of the signals an event writes to a socket that takes no more writes: the signal itself, or what a
      hello flushes. */
  function LostBy(s: State, e: Event): set<nat> {
    match e
    case Hello(socket, peer, now) =>
      if Unwritable(s, socket)
      then set item | item in FreshOf(Waiting(s.pending, peer), now) && Fits(item.signal) :: item.number
      else {}
    case SignalIn(socket, signal, now, _) =>
      if Accepts(s, socket, signal, now) && signal.to in s.peers && Unwritable(s, s.peers[signal.to]) && Fits(signal)
      then {|s.accepted|}
      else {}
    case Ended(_) => {}
    case Closed(_) => {}
  }

  predicate Accepts(s: State, socket: Socket, signal: Signal, now: int) {
    signal.expiresAt >= now && socket in s.current && signal.from == s.current[socket]
  }

  /** Which peers are registered where, and which sockets are left. */
  lemma StepTables(s: State, e: Event)
    ensures var t := Step(s, e);
            && t.peers == (if e.Hello? then s.peers[e.peer := e.socket]
                           else if e.Closed? && e.socket in s.current && s.current[e.socket] in s.peers
                                && s.peers[s.current[e.socket]] == e.socket
                           then s.peers - {s.current[e.socket]} else s.peers)
            && t.ended == (if e.Ended? then s.ended + {e.socket} else s.ended)
            && t.closed == (if e.Closed? then s.closed + {e.socket} else s.closed)
            && t.current == (if e.Hello? && e.peer != "" then s.current[e.socket := e.peer] else s.current)
            && t.lost == s.lost + LostBy(s, e)
  {
    hide FreshOf, PrunedQueues, StaleNumbers, ForwardAll;
    if e.Hello? {
      HelloTables(s, e.socket, e.peer, e.now);
    }
  }

  lemma HelloTables(s: State, socket: Socket, peer: PeerId, now: int)
    ensures var t := Step(s, Hello(socket, peer, now));
            && t.peers == s.peers[peer := socket] && t.ended == s.ended && t.closed == s.closed
            && t.current == (if peer != "" then s.current[socket := peer] else s.current)
            && t.lost == s.lost + LostBy(s, Hello(socket, peer, now))
  {
    hide FreshOf, PrunedQueues, StaleNumbers, ForwardAll, Waiting;
    var s1 := Prune(s.(peers := s.peers[peer := socket]), now);
    WaitingPruned(s.pending, peer, now);
    ForwardAllTables(s1.(pending := s1.pending - {peer}), socket, Waiting(s1.pending, peer));
  }

  lemma WaitingPruned(pending: map<PeerId, seq<Item>>, p: PeerId, now: int)
    ensures Waiting(PrunedQueues(pending, now), p) == FreshOf(Waiting(pending, p), now)
  {
  }

  function FittingNumbers(q: seq<Item>): set<nat> { set item | item in q && Fits(item.signal) :: item.number }

  lemma {:induction false} ForwardAllTables(s: State, socket: Socket, q: seq<Item>)
    ensures var t := ForwardAll(s, socket, q);
            && t.peers == s.peers && t.ended == s.ended && t.closed == s.closed && t.current == s.current
            && t.lost == s.lost + (if Unwritable(s, socket) then FittingNumbers(q) else {})
    decreases |q|
  {
    if q != [] {
      ForwardAllTables(Forward(s, socket, q[0]), socket, q[1..]);
      assert q == [q[0]] + q[1..];
      assert FittingNumbers(q) == (if Fits(q[0].signal) then {q[0].number} else {}) + FittingNumbers(q[1..]);
    }
  }

  /** No event writes to a socket that takes no more writes. */
  ghost predicate LosesNothing(events: seq<Event>) {
    forall k | 0 <= k < |events| :: LostBy(Run(events[..k]), events[k]) == {}
  }

  lemma LosesNothingFront(events: seq<Event>)
    requires events != []
    ensures var front, last := events[..|events| - 1], events[|events| - 1];
            LosesNothing(events) <==> LosesNothing(front) && LostBy(Run(front), last) == {}
  {
    hide Run, LostBy;
    var front := events[..|events| - 1];
    assert events[..|front|] == front && events[|front|] == events[|events| - 1];
    forall k | 0 <= k < |front| ensures front[..k] == events[..k] && front[k] == events[k] {
    }
  }

  /** Over every run: nothing is lost if and only if no event writes to a socket that takes no more writes. */
  lemma {:induction false} NothingLostIff(events: seq<Event>)
    ensures Run(events).lost == {} <==> LosesNothing(events)
  {
    hide Step, LostBy;
    if events != [] {
      var front, last := events[..|events| - 1], events[|events| - 1];
      NothingLostIff(front);
      LosesNothingFront(events);
      hide LosesNothing;
      StepTables(Run(front), last);
      NoneOfBoth(Run(front).lost, LostBy(Run(front), last));
    }
  }

  lemma NoneOfBoth(a: set<nat>, b: set<nat>)
    ensures a + b == {} <==> a == {} && b == {}
  {
    assert a <= a + b && b <= a + b;
  }

  /** What is lost has been accepted, and counts as written for its peer. */
  ghost predicate LostOk(s: State) {
    forall n <- s.lost :: n < |s.accepted| && n in Received(s.output, s.accepted[n].to)
  }

  lemma {:induction false} LostIsWritten(events: seq<Event>)
    ensures LostOk(Run(events))
  {
    if events != [] {
      hide Step, Inv, LostOk;
      RunKeeps(events[..|events| - 1]);
      LostIsWritten(events[..|events| - 1]);
      StepLostOk(Run(events[..|events| - 1]), events[|events| - 1]);
    } else {
      assert LostOk(Init);
    }
  }

  lemma AppendLostOk(s: State, o: Output)
    requires LostOk(s)
    ensures LostOk(s.(output := s.output + [o]))
  {
    hide Received;
    forall n <- s.lost ensures n in Received(s.output + [o], s.accepted[n].to) {
      ReceivedAppend(s.output, o, s.accepted[n].to);
    }
  }

  lemma ForwardLostOk(s: State, socket: Socket, item: Item)
    requires LostOk(s) && item.number < |s.accepted| && s.accepted[item.number] == item.signal
    ensures LostOk(Forward(s, socket, item))
  {
    hide Received;
    var o := SignalOut(socket, item.signal.to, item.number);
    AppendLostOk(s, o);
    ReceivedAppend(s.output, o, item.signal.to);
  }

  lemma {:induction false} ForwardAllLostOk(s: State, socket: Socket, q: seq<Item>, p: PeerId)
    requires LostOk(s) && ItemsFor(q, s.accepted, p)
    ensures LostOk(ForwardAll(s, socket, q))
    decreases |q|
  {
    hide LostOk;
    if q != [] {
      assert ItemsFor(q[1..], s.accepted, p);
      ForwardLostOk(s, socket, q[0]);
      ForwardAllLostOk(Forward(s, socket, q[0]), socket, q[1..], p);
    }
  }

  lemma AcceptLostOk(s: State, signal: Signal)
    requires LostOk(s)
    ensures LostOk(s.(accepted := s.accepted + [signal]))
  {
  }

  lemma StepLostOk(s: State, e: Event)
    requires Inv(s) && LostOk(s)
    ensures LostOk(Step(s, e))
  {
    if e.Hello? {
      HelloLostOk(s, e.socket, e.peer, e.now);
    } else if e.SignalIn? {
      SignalLostOk(s, e.socket, e.signal, e.now, e.pruneNow);
    }
  }

  lemma HelloLostOk(s: State, socket: Socket, peer: PeerId, now: int)
    requires Inv(s) && LostOk(s)
    ensures LostOk(Step(s, Hello(socket, peer, now)))
  {
    hide Inv, ItemsFor, Received;
    HelloItems(s, socket, peer, now);
    var s1 := Prune(s.(peers := s.peers[peer := socket]), now);
    var s2, q := s1.(pending := s1.pending - {peer}), Waiting(s1.pending, peer);
    assert LostOk(s2);
    ForwardAllLostOk(s2, socket, q, peer);
    AppendLostOk(ForwardAll(s2, socket, q), HelloAck(socket, peer));
  }

  lemma SignalLostOk(s: State, socket: Socket, signal: Signal, now: int, pruneNow: int)
    requires LostOk(s)
    ensures LostOk(Step(s, SignalIn(socket, signal, now, pruneNow)))
  {
    hide Received, FreshOf;
    AcceptLostOk(s, signal);
    AppendLostOk(s, SenderMismatch(socket));
    var s1, item := s.(accepted := s.accepted + [signal]), Item(|s.accepted|, signal);
    if signal.to in s.peers {
      ForwardLostOk(s1, s.peers[signal.to], item);
      AppendLostOk(Forward(s1, s.peers[signal.to], item), SignalAck(socket, signal.id));
    } else {
      var s' := Prune(s1, pruneNow);
      var q := Waiting(s'.pending, signal.to) + [item];
      AppendLostOk(s'.(pending := s'.pending[signal.to := q]), SignalAck(socket, signal.id));
    }
  }

  /** After any run, a signal accepted for a registered peer is lost exactly when that peer is registered on a
      socket that has ended or closed and the frame is small enough to be written there; it is acknowledged all the
      same, and neither kept nor given up. */
  lemma SignalLost(events: seq<Event>, socket: Socket, signal: Signal, now: int, pruneNow: int)
    requires Accepts(Run(events), socket, signal, now) && signal.to in Run(events).peers
    ensures var s := Run(events);
            var t, n := Step(s, SignalIn(socket, signal, now, pruneNow)), |s.accepted|;
            && t.accepted == s.accepted + [signal] && t.pending == s.pending
            && t.output[|t.output| - 1] == SignalAck(socket, signal.id)
            && (n in t.lost <==> Stale(s, signal.to) && Fits(signal))
            && (n in t.lost ==> n !in t.dropped)
  {
    RunKeeps(events);
    LostIsWritten(events);
    AcceptQueues(Run(events), signal);
    hide Inv, Run;
  }

  /** After any run, each signal that a hello takes out of the queue is lost exactly when the socket has ended or
      closed and the frame fits. None of them had been lost before, and none waits any longer. */
  lemma FlushLost(events: seq<Event>, socket: Socket, peer: PeerId, now: int)
    ensures var s := Run(events);
            var t, q := Step(s, Hello(socket, peer, now)), FreshOf(Waiting(s.pending, peer), now);
            && Waiting(t.pending, peer) == []
            && forall item <- q :: item.number !in s.lost
                                   && (item.number in t.lost <==> Unwritable(s, socket) && Fits(item.signal))
  {
    RunKeeps(events);
    LostIsWritten(events);
    var s, e := Run(events), Hello(socket, peer, now);
    var q := FreshOf(Waiting(s.pending, peer), now);
    StepTables(s, e);
    HelloQueue(s, socket, peer, now);
    QueueNotLost(s, peer);
    FreshMembers(Waiting(s.pending, peer), now);
    assert Waiting(s.pending, peer) == [] || peer in s.pending;
    hide Run, Step;
    forall item <- q
      ensures item.number !in s.lost && (item.number in LostBy(s, e) <==> Unwritable(s, socket) && Fits(item.signal))
    {
      if item.number in LostBy(s, e) {
        var other :| other in q && Fits(other.signal) && other.number == item.number;
        assert other.signal == s.accepted[item.number] == item.signal;
      }
    }
  }

  lemma {:induction false} FreshMembers(q: seq<Item>, now: int)
    ensures forall item <- FreshOf(q, now) :: item in q
  {
    if q != [] {
      FreshMembers(q[1..], now);
    }
  }

  lemma HelloQueue(s: State, socket: Socket, peer: PeerId, now: int)
    ensures Waiting(Step(s, Hello(socket, peer, now)).pending, peer) == []
  {
    var s1 := Prune(s.(peers := s.peers[peer := socket]), now);
    ForwardAllPending(s1.(pending := s1.pending - {peer}), socket, Waiting(s1.pending, peer));
  }

  lemma {:induction false} ForwardAllPending(s: State, socket: Socket, q: seq<Item>)
    ensures ForwardAll(s, socket, q).pending == s.pending && ForwardAll(s, socket, q).accepted == s.accepted
    decreases |q|
  {
    if q != [] {
      ForwardAllPending(Forward(s, socket, q[0]), socket, q[1..]);
    }
  }

  /** What waits has been written to nobody, so it has not been lost. */
  lemma QueueNotLost(s: State, p: PeerId)
    requires Inv(s) && LostOk(s)
    ensures forall item <- Waiting(s.pending, p) ::
              item.number < |s.accepted| && s.accepted[item.number] == item.signal && item.number !in s.lost
  {
    var q, before := Waiting(s.pending, p), Received(s.output, p);
    assert Balanced(s, "", [], p) && [] + q == q;
    assert ItemsFor(q, s.accepted, p);
    ReceivedApart(s, Numbers(q), before, p);
    hide Inv, Balanced, Queues;
    forall i | 0 <= i < |q| ensures q[i].number !in s.lost {
      assert Numbers(q)[i] == q[i].number;
    }
  }

  // ---------- Who is at the other end ----------

  /** A peer is registered on a socket that takes no more writes. */
  predicate Stale(s: State, p: PeerId) { p in s.peers && Unwritable(s, s.peers[p]) }

  ghost predicate NoStale(s: State) { forall p :: !Stale(s, p) }

  /** No hello comes behind a close frame, no socket ends that a peer is registered on, and when a socket closes, no
      peer is registered on it but the one it last said it was. */
  predicate Clean(s: State, e: Event) {
    match e
    case Hello(socket, _, _) => !Unwritable(s, socket)
    case SignalIn(_, _, _, _) => true
    case Ended(socket) => forall p | p in s.peers :: s.peers[p] != socket
    case Closed(socket) => TidyClose(s, e)
  }

  /** When a socket closes, no peer is registered on it but the one it last said it was. */
  predicate TidyClose(s: State, e: Event) {
    e.Closed? ==> forall p | p in s.peers && s.peers[p] == e.socket :: e.socket in s.current && s.current[e.socket] == p
  }

  ghost predicate CleanRun(events: seq<Event>) {
    forall k | 0 <= k < |events| :: Clean(Run(events[..k]), events[k])
  }

  lemma StepStale(s: State, e: Event)
    requires NoStale(s)
    ensures NoStale(Step(s, e)) <==> Clean(s, e)
  {
    StepTables(s, e);
    var t := Step(s, e);
    hide Step, LostBy;
    if e.Hello? {
      assert Stale(t, e.peer) <==> Unwritable(s, e.socket);
      forall p | p != e.peer ensures !Stale(t, p) {
        assert !Stale(s, p);
      }
    } else if e.Closed? && !TidyClose(s, e) {
      var p :| p in s.peers && s.peers[p] == e.socket && !(e.socket in s.current && s.current[e.socket] == p);
      assert Stale(t, p);
    } else if e.Ended? && !Clean(s, e) {
      var p :| p in s.peers && s.peers[p] == e.socket;
      assert Stale(t, p);
    } else {
      forall p ensures !Stale(t, p) {
        assert !Stale(s, p);
      }
    }
  }

  ghost predicate NeverStale(events: seq<Event>) { forall n | 0 <= n <= |events| :: NoStale(Run(events[..n])) }

  lemma NeverStaleFront(events: seq<Event>)
    requires events != []
    ensures NeverStale(events) <==> NeverStale(events[..|events| - 1]) && NoStale(Run(events))
  {
    hide Run, NoStale;
    var front := events[..|events| - 1];
    if NeverStale(events) {
      forall n | 0 <= n <= |front| ensures NoStale(Run(front[..n])) {
        assert front[..n] == events[..n];
      }
      assert NoStale(Run(events[..|events|])) && events[..|events|] == events;
    }
    if NeverStale(front) && NoStale(Run(events)) {
      forall n | 0 <= n <= |events| ensures NoStale(Run(events[..n])) {
        if n == |events| {
          assert events[..n] == events;
        } else {
          assert NoStale(Run(front[..n])) && front[..n] == events[..n];
        }
      }
    }
  }

  lemma CleanRunFront(events: seq<Event>)
    requires events != []
    ensures var front, last := events[..|events| - 1], events[|events| - 1];
            CleanRun(events) <==> CleanRun(front) && Clean(Run(front), last)
  {
    hide Run, Clean;
    var front := events[..|events| - 1];
    assert events[..|front|] == front && events[|front|] == events[|events| - 1];
    forall k | 0 <= k < |front| ensures front[..k] == events[..k] && front[k] == events[k] {
    }
  }

  lemma NeverStaleNow(events: seq<Event>)
    requires NeverStale(events)
    ensures NoStale(Run(events))
  {
    hide NoStale, Run;
    assert events[..|events|] == events;
  }

  /** In every run, no peer is ever registered on a socket that takes no more writes if and only if every hello comes
      on one that does, no close frame comes on one with a registration, and every socket that closes is registered
      for no peer but the last it named. */
  lemma {:induction false} StaleIff(events: seq<Event>)
    ensures NeverStale(events) <==> CleanRun(events)
  {
    hide Step, NoStale, Clean;
    if events == [] {
      InitStale();
      assert forall n | 0 <= n <= |events| :: events[..n] == [];
      assert Run([]) == Init;
    } else {
      var front, last := events[..|events| - 1], events[|events| - 1];
      StaleIff(front);
      NeverStaleFront(events);
      CleanRunFront(events);
      hide NeverStale, CleanRun;
      if NeverStale(front) {
        NeverStaleNow(front);
        StepStale(Run(front), last);
      }
    }
  }

  lemma InitStale()
    ensures NoStale(Init)
  {
  }

  // ---------- What closing leaves behind ----------

  /** Sockets say nothing after they have closed; after `end` they may. */
  predicate Live(s: State, e: Event) { !e.Closed? ==> e.socket !in s.closed }

  ghost predicate LiveRun(events: seq<Event>) {
    forall k | 0 <= k < |events| :: Live(Run(events[..k]), events[k])
  }

  /** No peer is registered on a socket that has closed: nothing would take that registration away again. */
  ghost predicate NoneLeft(s: State) { forall p | p in s.peers :: s.peers[p] !in s.closed }

  ghost predicate TidyRun(events: seq<Event>) {
    forall k | 0 <= k < |events| :: TidyClose(Run(events[..k]), events[k])
  }

  lemma StepLeft(s: State, e: Event)
    requires NoneLeft(s) && Live(s, e)
    ensures NoneLeft(Step(s, e)) <==> TidyClose(s, e)
  {
    StepTables(s, e);
    var t := Step(s, e);
    hide Step, LostBy;
    if !TidyClose(s, e) {
      var p :| p in s.peers && s.peers[p] == e.socket && !(e.socket in s.current && s.current[e.socket] == p);
      assert p in t.peers && t.peers[p] in t.closed;
    } else {
      assert forall p | p in t.peers :: t.peers[p] !in t.closed;
    }
  }

  ghost predicate NeverLeft(events: seq<Event>) { forall n | 0 <= n <= |events| :: NoneLeft(Run(events[..n])) }

  lemma NeverLeftFront(events: seq<Event>)
    requires events != []
    ensures NeverLeft(events) <==> NeverLeft(events[..|events| - 1]) && NoneLeft(Run(events))
  {
    hide Run, NoneLeft;
    var front := events[..|events| - 1];
    if NeverLeft(events) {
      forall n | 0 <= n <= |front| ensures NoneLeft(Run(front[..n])) {
        assert front[..n] == events[..n];
      }
      assert NoneLeft(Run(events[..|events|])) && events[..|events|] == events;
    }
    if NeverLeft(front) && NoneLeft(Run(events)) {
      forall n | 0 <= n <= |events| ensures NoneLeft(Run(events[..n])) {
        if n == |events| {
          assert events[..n] == events;
        } else {
          assert NoneLeft(Run(front[..n])) && front[..n] == events[..n];
        }
      }
    }
  }

  lemma TidyRunFront(events: seq<Event>)
    requires events != []
    ensures var front, last := events[..|events| - 1], events[|events| - 1];
            && (TidyRun(events) <==> TidyRun(front) && TidyClose(Run(front), last))
            && (LiveRun(events) <==> LiveRun(front) && Live(Run(front), last))
  {
    hide Run, TidyClose, Live;
    var front := events[..|events| - 1];
    assert events[..|front|] == front && events[|front|] == events[|events| - 1];
    forall k | 0 <= k < |front| ensures front[..k] == events[..k] && front[k] == events[k] {
    }
  }

  lemma NeverLeftNow(events: seq<Event>)
    requires NeverLeft(events)
    ensures NoneLeft(Run(events))
  {
    hide NoneLeft, Run;
    assert events[..|events|] == events;
  }

  /** In every run, close frames and hellos behind them included, no registration outlives its socket's close event
      if and only if every socket that closes is registered for no peer but the last it named. */
  lemma {:induction false} LeftBehindIff(events: seq<Event>)
    requires LiveRun(events)
    ensures NeverLeft(events) <==> TidyRun(events)
  {
    hide Step, NoneLeft, TidyClose, Live;
    if events == [] {
      InitLeft();
      assert forall n | 0 <= n <= |events| :: events[..n] == [];
      assert Run([]) == Init;
    } else {
      var front, last := events[..|events| - 1], events[|events| - 1];
      TidyRunFront(events);
      LeftBehindIff(front);
      NeverLeftFront(events);
      hide NeverLeft, TidyRun, LiveRun;
      if NeverLeft(front) {
        NeverLeftNow(front);
        StepLeft(Run(front), last);
      }
    }
  }

  lemma InitLeft()
    ensures NoneLeft(Init)
  {
  }

  /** The socket said hello as the peer. */
  predicate Said(events: seq<Event>, socket: Socket, p: PeerId) {
    exists e <- events :: e.Hello? && e.socket == socket && e.peer == p
  }

  /** Every signal is written to a socket that said hello as its peer, and registrations and the last names of
      connections are such hellos too. */
  ghost predicate Introduced(s: State, events: seq<Event>) {
    && (forall o <- s.output :: o.SignalOut? ==> Said(events, o.socket, o.peer))
    && (forall p | p in s.peers :: Said(events, s.peers[p], p))
    && (forall socket | socket in s.current :: Said(events, socket, s.current[socket]))
    && (forall socket, p | Said(events, socket, p) && p != "" :: socket in s.current)
  }

  lemma {:induction false} RunIntroduced(events: seq<Event>)
    ensures Introduced(Run(events), events)
  {
    if events != [] {
      var front, last := events[..|events| - 1], events[|events| - 1];
      RunIntroduced(front);
      RunKeeps(front);
      assert events == front + [last];
      StepIntroduced(Run(front), front, last);
    }
  }

  lemma SaidMore(events: seq<Event>, e: Event)
    ensures forall socket, p :: Said(events + [e], socket, p) <==>
              Said(events, socket, p) || (e.Hello? && e.socket == socket && e.peer == p)
  {
    assert forall x <- events :: x in events + [e];
    assert e in events + [e];
  }

  lemma StepIntroduced(s: State, events: seq<Event>, e: Event)
    requires Inv(s) && Introduced(s, events)
    ensures Introduced(Step(s, e), events + [e])
  {
    hide Inv, Step, Said, WritesToRegistered;
    SaidMore(events, e);
    StepTables(s, e);
    StepOutputs(s, e);
    OutputsSaid(s, Step(s, e), events, e);
  }

  lemma OutputsSaid(s: State, t: State, events: seq<Event>, e: Event)
    requires WritesToRegistered(s, t) && forall o <- s.output :: o.SignalOut? ==> Said(events, o.socket, o.peer)
    requires forall p | p in t.peers :: Said(events + [e], t.peers[p], p)
    ensures forall o <- t.output :: o.SignalOut? ==> Said(events + [e], o.socket, o.peer)
  {
    SaidMore(events, e);
    hide Said;
    assert t.output == s.output + t.output[|s.output|..];
  }

  lemma StepOutputs(s: State, e: Event)
    requires Inv(s)
    ensures WritesToRegistered(s, Step(s, e))
  {
    if e.Hello? {
      HelloOutputs(s, e.socket, e.peer, e.now);
    } else if e.SignalIn? {
      SignalOutputs(s, e.socket, e.signal, e.now, e.pruneNow);
    }
  }

  lemma SignalOutputs(s: State, socket: Socket, signal: Signal, now: int, pruneNow: int)
    ensures WritesToRegistered(s, Step(s, SignalIn(socket, signal, now, pruneNow)))
  {
    hide FreshOf, Waiting, StaleNumbers, PrunedQueues;
    var t := Step(s, SignalIn(socket, signal, now, pruneNow));
    if Accepts(s, socket, signal, now) && signal.to in s.peers {
      var ack := SignalAck(socket, signal.id);
      var written: seq<Output> :=
        if Fits(signal) then [SignalOut(s.peers[signal.to], signal.to, |s.accepted|)] else [];
      assert t.output == s.output + (written + [ack]);
      assert t.output[|s.output|..] == written + [ack];
    }
  }

  lemma HelloItems(s: State, socket: Socket, peer: PeerId, now: int)
    requires Inv(s)
    ensures var s1 := Prune(s.(peers := s.peers[peer := socket]), now);
            ItemsFor(Waiting(s1.pending, peer), s1.accepted, peer)
  {
    hide Prune, Balanced, Queues, Waiting, ItemsFor;
    PeersApart(s, s.peers[peer := socket]);
    PrunedForPeer(s.(peers := s.peers[peer := socket]), peer, now);
  }

  lemma HelloOutputs(s: State, socket: Socket, peer: PeerId, now: int)
    requires Inv(s)
    ensures WritesToRegistered(s, Step(s, Hello(socket, peer, now)))
  {
    var s0 := s.(peers := s.peers[peer := socket]);
    hide Inv, Prune, Balanced, Queues, ForwardAll, Waiting, ItemsFor;
    HelloItems(s, socket, peer, now);
    PrunedTables(s0, now);
    var s1 := Prune(s0, now);
    OutputsOf(s1.(pending := s1.pending - {peer}), socket, Waiting(s1.pending, peer), peer);
  }

  lemma {:induction false} OutputsOf(s: State, socket: Socket, q: seq<Item>, p: PeerId)
    requires ItemsFor(q, s.accepted, p)
    ensures var t := ForwardAll(s, socket, q);
            && s.output <= t.output && t.peers == s.peers
            && forall o <- t.output[|s.output|..] :: o.SignalOut? ==> o.socket == socket && o.peer == p
    decreases |q|
  {
    if q != [] {
      assert ItemsFor(q[1..], Forward(s, socket, q[0]).accepted, p);
      OutputsOf(Forward(s, socket, q[0]), socket, q[1..], p);
    }
  }

  /** Over every run in which no registration meets a socket that takes no more writes: nothing is lost, and every
      signal has been written to a socket that had said hello as its peer. */
  lemma ReachesPeer(events: seq<Event>)
    requires CleanRun(events)
    ensures Run(events).lost == {}
    ensures forall o <- Run(events).output :: o.SignalOut? ==> Said(events, o.socket, o.peer)
  {
    StaleIff(events);
    NothingLostIff(events);
    forall k | 0 <= k < |events| ensures LostBy(Run(events[..k]), events[k]) == {} {
      hide NoStale, Clean, LostBy, Run;
      CleanLosesNothing(Run(events[..k]), events[k]);
    }
    hide NeverStale, CleanRun, LostBy, Run;
    OutputsIntroduced(events);
  }

  lemma CleanLosesNothing(s: State, e: Event)
    requires NoStale(s) && Clean(s, e)
    ensures LostBy(s, e) == {}
  {
    if e.SignalIn? {
      assert !Stale(s, e.signal.to);
    }
  }

  lemma OutputsIntroduced(events: seq<Event>)
    ensures forall o <- Run(events).output :: o.SignalOut? ==> Said(events, o.socket, o.peer)
  {
    RunIntroduced(events);
    hide Run, Said;
  }

  /** Each socket names one peer at most, and not the empty one. */
  ghost predicate OneName(events: seq<Event>) {
    forall socket, p, q | Said(events, socket, p) && Said(events, socket, q) :: p == q != ""
  }

  /** Then no registration outlives its socket. */
  lemma OneNameIsTidy(events: seq<Event>)
    requires OneName(events)
    ensures TidyRun(events)
  {
    forall k | 0 <= k < |events| ensures TidyClose(Run(events[..k]), events[k]) {
      var s := Run(events[..k]);
      RunIntroduced(events[..k]);
      hide Run, Said;
      SaidPrefix(events, k);
      if events[k].Closed? {
        var socket := events[k].socket;
        forall p | p in s.peers && s.peers[p] == socket ensures socket in s.current && s.current[socket] == p {
          assert Said(events[..k], socket, p);
          assert Said(events, socket, p) && p != "";
          assert socket in s.current && Said(events[..k], socket, s.current[socket]);
        }
      }
    }
  }

  lemma SaidPrefix(events: seq<Event>, k: nat)
    requires k <= |events|
    ensures forall socket, p :: Said(events[..k], socket, p) ==> Said(events, socket, p)
  {
    assert forall e <- events[..k] :: e in events;
  }

  lemma HelloUnqueued(s: State, socket: Socket, peer: PeerId, now: int)
    requires s.pending == map[]
    ensures var t := Step(s, Hello(socket, peer, now));
            t.pending == map[] && t.dropped == s.dropped && t.accepted == s.accepted && t.lost == s.lost
  {
    var s1 := Prune(s.(peers := s.peers[peer := socket]), now);
    assert s1.pending == map[] && Waiting(s1.pending, peer) == [] && StaleNumbers(s.pending, now) == {};
    assert s1.dropped == s.dropped;
  }

  lemma RunAppend(events: seq<Event>, e: Event)
    ensures Run(events + [e]) == Step(Run(events), e)
  {
    assert (events + [e])[..|events|] == events;
  }

  /** Signals from 2, which is the peer C, for the peer A. */
  predicate FromCToA(signal: Signal, now: int) {
    signal.expiresAt >= now && Fits(signal) && signal.from == "C" && signal.to == "A"
  }

  predicate Quiet(s: State) { s.pending == map[] && s.dropped == map[] && s.accepted == [] && s.lost == {} }

  /** Two sockets say hello, one as A and one as C. */
  function TwoPeers(now: int): seq<Event> { [Hello(1, "A", now)] + [Hello(2, "C", now)] }

  lemma QuietStep(events: seq<Event>, e: Event)
    requires Quiet(Run(events)) && !e.SignalIn?
    ensures Quiet(Run(events + [e])) && Run(events + [e]) == Step(Run(events), e)
  {
    RunAppend(events, e);
    hide Run;
    if e.Hello? {
      HelloUnqueued(Run(events), e.socket, e.peer, e.now);
    }
  }

  lemma QuietStart()
    ensures Quiet(Run([])) && Run([]) == Init
  {
  }

  lemma TwoPeersTables(now: int)
    ensures var s := Run(TwoPeers(now));
            && Quiet(s) && s.peers == map["A" := 1, "C" := 2] && s.current == map[1 := "A", 2 := "C"]
            && s.ended == {} && s.closed == {}
  {
    var a, b := Hello(1, "A", now), Hello(2, "C", now);
    QuietStart();
    hide Run, Step;
    QuietStep([], a);
    assert [] + [a] == [a];
    QuietStep([a], b);
    StepTables(Init, a);
    StepTables(Step(Init, a), b);
  }

  lemma LoseNow(events: seq<Event>, signal: Signal, now: int)
    requires FromCToA(signal, now)
    requires var s := Run(events); Quiet(s) && Stale(s, "A") && 2 in s.current && s.current[2] == "C"
    ensures var t := Run(events + [SignalIn(2, signal, now, now)]);
            t.accepted == [signal] && t.lost == {0} && t.pending == map[] && t.dropped == map[]
  {
    RunAppend(events, SignalIn(2, signal, now, now));
    hide Run;
  }

  /** Between the close frame of A and its close event, a signal for A is acknowledged and lost, though every socket
      has one name only. */
  lemma EndedLoses(signal: Signal, now: int)
    requires FromCToA(signal, now)
    ensures var events := TwoPeers(now) + [Ended(1)];
            var t := Run(events + [SignalIn(2, signal, now, now)]);
            && OneName(events)
            && t.accepted == [signal] && t.lost == {0} && t.pending == map[] && t.dropped == map[]
  {
    var events := TwoPeers(now) + [Ended(1)];
    TwoPeersTables(now);
    hide Run, FromCToA, OneName;
    QuietStep(TwoPeers(now), Ended(1));
    LoseNow(events, signal, now);
    TwoPeersNamed(now);
  }

  lemma TwoPeersNamed(now: int)
    ensures OneName(TwoPeers(now) + [Ended(1)])
  {
    var events := TwoPeers(now) + [Ended(1)];
    assert forall e <- events :: e.Hello? ==> e == Hello(1, "A", now) || e == Hello(2, "C", now);
    assert "A" != "" && "C" != "";
  }

  /** One socket says hello as two peers and closes; a third peer connects. */
  function TwoNames(now: int): seq<Event> {
    [Hello(1, "A", now)] + [Hello(1, "B", now)] + [Closed(1)] + [Hello(2, "C", now)]
  }

  lemma TwoNamesStale(now: int)
    ensures var s := Run(TwoNames(now));
            Quiet(s) && Stale(s, "A") && 2 in s.current && s.current[2] == "C"
  {
    var a, b, c, d := Hello(1, "A", now), Hello(1, "B", now), Closed(1), Hello(2, "C", now);
    hide Run, Step, Quiet;
    QuietStart();
    QuietStep([], a);
    assert [] + [a] == [a];
    QuietStep([a], b);
    QuietStep([a] + [b], c);
    QuietStep([a] + [b] + [c], d);
    TwoNamesTables(now);
  }

  lemma TwoNamesTables(now: int)
    ensures var s := Step(Step(Init, Hello(1, "A", now)), Hello(1, "B", now));
            var s := Step(Step(s, Closed(1)), Hello(2, "C", now));
            Stale(s, "A") && 2 in s.current && s.current[2] == "C"
  {
    hide Step, LostBy;
    StepTables(Init, Hello(1, "A", now));
    var s1 := Step(Init, Hello(1, "A", now));
    assert s1.peers == map["A" := 1];
    StepTables(s1, Hello(1, "B", now));
    var s2 := Step(s1, Hello(1, "B", now));
    assert s2.peers == map["A" := 1, "B" := 1] && s2.current == map[1 := "B"];
    StepTables(s2, Closed(1));
    var s3 := Step(s2, Closed(1));
    assert s3.peers == map["A" := 1] && 1 in s3.closed;
    StepTables(s3, Hello(2, "C", now));
  }

  /** The registration that such a socket leaves behind takes signals that are acknowledged and lost. */
  lemma TwoNamesLose(signal: Signal, now: int)
    requires FromCToA(signal, now)
    ensures var t := Run(TwoNames(now) + [SignalIn(2, signal, now, now)]);
            t.accepted == [signal] && t.lost == {0} && t.pending == map[] && t.dropped == map[]
  {
    hide Run, Step, FromCToA, TwoNames, Stale;
    TwoNamesStale(now);
    LoseNow(TwoNames(now), signal, now);
  }

  /** A signal waits for A; the socket of A sends its close frame, and then its hello: the queue goes into the ended
      socket and is lost. */
  lemma HelloBehindEndLoses(signal: Signal, now: int)
    requires FromCToA(signal, now) && Fresh(signal, now)
    ensures var t := Run([Hello(2, "C", now)] + [SignalIn(2, signal, now, now)] + [Ended(1)] + [Hello(1, "A", now)]);
            t.accepted == [signal] && t.lost == {0} && Waiting(t.pending, "A") == []
  {
    var a, b, c, d := Hello(2, "C", now), SignalIn(2, signal, now, now), Ended(1), Hello(1, "A", now);
    hide Run, Step, Fresh, FromCToA, Waiting;
    QuietStart();
    QuietStep([], a);
    assert [] + [a] == [a];
    StepTables(Init, a);
    RunAppend([a], b);
    RunAppend([a] + [b], c);
    RunAppend([a] + [b] + [c], d);
    var s := Step(Init, a);
    assert "A" != "C";
    QueuedOnly(s, signal, now);
    EndedOnly(Step(s, b), 1);
    FlushIntoEnded(Step(Step(s, b), c), signal, now);
  }

  lemma EndedOnly(s: State, socket: Socket)
    ensures Step(s, Ended(socket)) == s.(ended := s.ended + {socket})
  {
  }

  lemma FlushIntoEnded(s: State, signal: Signal, now: int)
    requires s.pending == map["A" := [Item(0, signal)]] && s.lost == {} && 1 in s.ended
    requires Fits(signal) && Fresh(signal, now)
    ensures var t := Step(s, Hello(1, "A", now));
            t.accepted == s.accepted && t.lost == {0} && Waiting(t.pending, "A") == []
  {
    var item := Item(0, signal);
    hide Step;
    StepTables(s, Hello(1, "A", now));
    HelloQueue(s, 1, "A", now);
    HelloAccepts(s, 1, "A", now);
    assert [item][1..] == [] && FreshOf([item], now) == [item];
    assert FittingNumbers([item]) == {0} by { assert item in [item]; }
    assert LostBy(s, Hello(1, "A", now)) == FittingNumbers(FreshOf(Waiting(s.pending, "A"), now));
  }

  lemma QueuedOnly(s: State, signal: Signal, now: int)
    requires Quiet(s) && FromCToA(signal, now) && "A" !in s.peers && 2 in s.current && s.current[2] == "C"
    ensures var t := Step(s, SignalIn(2, signal, now, now));
            && t.pending == map["A" := [Item(0, signal)]] && t.accepted == [signal] && t.lost == {} && Fits(signal)
  {
    var s' := Prune(s.(accepted := [signal]), now);
    assert s.accepted + [signal] == [signal] && s'.pending == map[] && [] + [Item(0, signal)] == [Item(0, signal)];
  }

  lemma HelloAccepts(s: State, socket: Socket, peer: PeerId, now: int)
    ensures Step(s, Hello(socket, peer, now)).accepted == s.accepted
  {
    var s1 := Prune(s.(peers := s.peers[peer := socket]), now);
    ForwardAllPending(s1.(pending := s1.pending - {peer}), socket, Waiting(s1.pending, peer));
  }

  // ---------- The server ----------

  /** The queues with all pruned but those still to be done. */
  ghost predicate PrunedBut(pending: map<PeerId, seq<Item>>, was: map<PeerId, seq<Item>>, todo: set<PeerId>, now: int) {
    && (forall p :: p in pending <==> p in was && (p in todo || FreshOf(was[p], now) != []))
    && (forall p | p in pending :: pending[p] == if p in todo then was[p] else FreshOf(was[p], now))
  }

  lemma PrunedAll(pending: map<PeerId, seq<Item>>, was: map<PeerId, seq<Item>>, now: int)
    requires PrunedBut(pending, was, {}, now)
    ensures pending == PrunedQueues(was, now)
  {
    hide FreshOf;
  }

  class SignalingServer {
    var peers: map<PeerId, Socket>
    var pending: map<PeerId, seq<Item>>
    var current: map<Socket, PeerId>
    // What has been written, and the history the statements above speak of.
    var output: seq<Output>
    var accepted: seq<Signal>
    ghost var dropped: map<nat, Reason>
    var ended: set<Socket>
    ghost var closed: set<Socket>
    ghost var lost: set<nat>

    ghost function Value(): State
      reads this
    {
      State(peers, pending, current, output, accepted, dropped, ended, closed, lost)
    }

    constructor ()
      ensures Value() == Init
    {
      peers, pending, current, output, accepted, dropped := map[], map[], map[], [], [], map[];
      ended, closed, lost := {}, {}, {};
    }

    method SendSignal(socket: Socket, item: Item)
      modifies this
      ensures Value() == Forward(old(Value()), socket, item)
    {
      if item.signal.frameBytes <= Frames.MAX_FRAME_BYTES {
        output := output + [SignalOut(socket, item.signal.to, item.number)];
        lost := if socket in ended || socket in closed then lost + {item.number} else lost;
      } else {
        dropped := dropped[item.number := Oversize];
      }
    }

    method PrunePending(now: int)
      modifies this
      ensures Value() == Prune(old(Value()), now)
    {
      hide FreshOf;
      ghost var was := pending;
      var todo := pending.Keys;
      while todo != {}
        invariant todo <= was.Keys && PrunedBut(pending, was, todo, now)
        invariant Value() == old(Value()).(pending := pending)
      {
        var p :| p in todo;
        var kept := FreshOf(pending[p], now);
        if |kept| > 0 {
          pending := pending[p := kept];
        } else {
          pending := pending - {p};
        }
        todo := todo - {p};
      }
      PrunedAll(pending, was, now);
      dropped := dropped + map n | n in StaleNumbers(was, now) :: Pruned(now);
    }

    method FlushPending(peer: PeerId, socket: Socket, now: int)
      modifies this
      ensures var s := Prune(old(Value()), now);
              Value() == ForwardAll(s.(pending := s.pending - {peer}), socket, Waiting(s.pending, peer))
    {
      PrunePending(now);
      var queue := if peer in pending then pending[peer] else [];
      pending := pending - {peer};
      ghost var all := ForwardAll(Value(), socket, queue);
      for i := 0 to |queue|
        invariant ForwardAll(Value(), socket, queue[i..]) == all
      {
        assert queue[i..][1..] == queue[i + 1..];
        SendSignal(socket, queue[i]);
      }
    }

    method HandleHello(socket: Socket, peer: PeerId, now: int)
      modifies this
      ensures Value() == Step(old(Value()), Hello(socket, peer, now))
    {
      hide Prune, ForwardAll;
      peers := peers[peer := socket];
      FlushPending(peer, socket, now);
      output := output + [HelloAck(socket, peer)];
      if peer != "" {
        current := current[socket := peer];
      }
    }

    method HandleSignal(socket: Socket, signal: Signal, now: int, pruneNow: int)
      modifies this
      ensures Value() == Step(old(Value()), SignalIn(socket, signal, now, pruneNow))
    {
      hide Prune;
      if signal.expiresAt < now {
        return;
      }
      if socket !in current || signal.from != current[socket] {
        output := output + [SenderMismatch(socket)];
        return;
      }
      var item := Item(|accepted|, signal);
      accepted := accepted + [signal];
      if signal.to in peers {
        SendSignal(peers[signal.to], item);
      } else {
        PrunePending(pruneNow);
        var queue := if signal.to in pending then pending[signal.to] else [];
        pending := pending[signal.to := queue + [item]];
      }
      output := output + [SignalAck(socket, signal.id)];
    }

    /** `socket.end()`; the registration stays. */
    method OnCloseFrame(socket: Socket)
      modifies this
      ensures Value() == Step(old(Value()), Ended(socket))
    {
      ended := ended + {socket};
    }

    method OnClose(socket: Socket)
      modifies this
      ensures Value() == Step(old(Value()), Closed(socket))
    {
      closed := closed + {socket};
      if socket in current && current[socket] in peers && peers[current[socket]] == socket {
        peers := peers - {current[socket]};
      }
    }
  }
}
