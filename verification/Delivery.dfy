/** Validation, deduplication and receipt of peer messages: src/network/NetworkMessage.ts and
    src/network/PeerTransport.ts. */
module Delivery {
  type PeerId = string
  type MessageId = string

  const PROTOCOL_VERSION: int := 1
  const MAX_MESSAGE_BYTES: nat := 256 * 1024

  /** A message whose fields have the right types; `bytes` is the size of its JSON text. */
  datatype Message = Message(version: int, id: MessageId, sender: PeerId, timestamp: int, ttlMs: int, bytes: nat) {
    function ExpiresAt(): int { timestamp + ttlMs }
  }

  datatype Rejection =
    | UnsupportedVersion | MissingId | MissingSender | InvalidTtl | Expired | TooLarge
    | SenderMismatch | Duplicate | MissingConnection

  datatype Outcome = Delivered | Rejected(reason: Rejection)

  /** The checks in the order of the source; the first that fails is reported. */
  function Validate(m: Message, now: int): Outcome {
    if m.version != PROTOCOL_VERSION then Rejected(UnsupportedVersion)
    else if m.id == "" then Rejected(MissingId)
    else if m.sender == "" then Rejected(MissingSender)
    else if m.ttlMs <= 0 then Rejected(InvalidTtl)
    else if m.ExpiresAt() < now then Rejected(Expired)
    else if m.bytes > MAX_MESSAGE_BYTES then Rejected(TooLarge)
    else Delivered
  }

  /** Which messages pass, in terms of their fields, and what is reported of the others: the first thing wrong. */
  lemma ValidateIff(m: Message, now: int)
    ensures Validate(m, now) == Delivered <==>
            && m.version == 1 && m.id != "" && m.sender != "" && m.ttlMs > 0 && now <= m.timestamp + m.ttlMs
            && m.bytes <= 262144
    ensures Validate(m, now) == Rejected(TooLarge) ==> m.bytes > 262144 && now <= m.timestamp + m.ttlMs
    ensures Validate(m, now) == Rejected(Expired) <==>
            m.version == 1 && m.id != "" && m.sender != "" && m.ttlMs > 0 && m.timestamp + m.ttlMs < now
    ensures Validate(m, now) == Rejected(InvalidTtl) <==>
            m.version == 1 && m.id != "" && m.sender != "" && m.ttlMs <= 0
    ensures Validate(m, now) == Rejected(MissingSender) <==> m.version == 1 && m.id != "" && m.sender == ""
    ensures Validate(m, now) == Rejected(MissingId) <==> m.version == 1 && m.id == ""
    ensures Validate(m, now) == Rejected(UnsupportedVersion) <==> m.version != 1
  {
  }

  // ---------- The table of seen messages ----------

  datatype Entry = Entry(id: MessageId, expiresAt: int)

  /** A JavaScript Map: entries in insertion order, ids distinct. */
  type Seen = seq<Entry>

  predicate Has(seen: Seen, id: MessageId) { exists e <- seen :: e.id == id }

  function Pruned(seen: Seen, now: int): Seen {
    if seen == [] then []
    else (if seen[0].expiresAt < now then [] else [seen[0]]) + Pruned(seen[1..], now)
  }

  lemma PrunedHead(seen: Seen, now: int)
    ensures Pruned(seen, now) == if seen == [] then [] else if seen[0].expiresAt < now then Pruned(seen[1..], now)
                                 else [seen[0]] + Pruned(seen[1..], now)
  {
  }

  /** Index of the first entry with the smallest expiry: the head of the stable sort. */
  function Oldest(seen: Seen): (k: nat)
    requires seen != []
    ensures k < |seen| && forall e <- seen :: seen[k].expiresAt <= e.expiresAt
  {
    if |seen| == 1 then 0
    else
      assert seen == [seen[0]] + seen[1..];
      var k := Oldest(seen[1..]);
      if seen[0].expiresAt <= seen[1..][k].expiresAt then 0 else k + 1
  }

  /** Of the entries that expire first it is the one that has been there longest. */
  lemma {:induction false} OldestIsFirst(seen: Seen)
    requires seen != []
    ensures forall j | 0 <= j < Oldest(seen) :: seen[j].expiresAt > seen[Oldest(seen)].expiresAt
  {
    if |seen| > 1 {
      OldestIsFirst(seen[1..]);
      assert seen == [seen[0]] + seen[1..];
    }
  }

  function Without(seen: Seen, k: nat): Seen
    requires k < |seen|
  {
    seen[..k] + seen[k + 1..]
  }

  /** The table after `accept`, and whether the message was accepted. */
  function Accept(seen: Seen, m: Message, now: int, maxEntries: nat): (Seen, bool) {
    var p := Pruned(seen, now);
    if Has(p, m.id) then (p, false)
    else
      var q := p + [Entry(m.id, m.ExpiresAt())];
      (if |q| > maxEntries then Without(q, Oldest(q)) else q, true)
  }

  class NetworkMessageDeduplicator {
    var seen: Seen
    const maxEntries: nat

    constructor (maxEntries: nat)
      ensures seen == [] && this.maxEntries == maxEntries
    {
      seen, this.maxEntries := [], maxEntries;
    }

    /** Expired entries are deleted from the map being walked: the next entry moves up to the place of the deleted
        one. */
    method Prune(now: int)
      modifies this
      ensures seen == Pruned(old(seen), now)
    {
      hide Pruned;
      var i := 0;
      while i < |seen|
        invariant 0 <= i <= |seen|
        invariant seen[..i] + Pruned(seen[i..], now) == Pruned(old(seen), now)
        decreases |seen| - i
      {
        var rest := seen[i + 1..];
        assert seen[i..][1..] == rest;
        if seen[i].expiresAt < now {
          assert Without(seen, i)[..i] == seen[..i] && Without(seen, i)[i..] == rest;
          PrunedHead(seen[i..], now);
          seen := Without(seen, i);
        } else {
          assert seen[..i + 1] == seen[..i] + [seen[i]];
          PrunedHead(seen[i..], now);
          i := i + 1;
        }
      }
      assert seen[..i] == seen && seen[i..] == [];
      PrunedHead([], now);
    }

    method AcceptMessage(m: Message, now: int) returns (accepted: bool)
      modifies this
      ensures (seen, accepted) == Accept(old(seen), m, now, maxEntries)
    {
      Prune(now);
      if Has(seen, m.id) {
        return false;
      }
      seen := seen + [Entry(m.id, m.ExpiresAt())];
      if |seen| > maxEntries {
        seen := Without(seen, Oldest(seen));
      }
      return true;
    }
  }

  // ---------- Receiving ----------

  /** One transport: its connections, its table, the messages its handlers were given, what it entered in the
      table, the ids that were pushed out of it to make room, and the latest reading of the clock. */
  datatype State = State(
    connections: set<PeerId>,
    seen: Seen,
    delivered: seq<Message>,
    accepted: seq<Entry>,
    evicted: set<MessageId>,
    clock: int)

  /** `receive` reads the clock once to validate and once more to deduplicate. */
  datatype Event =
    | Connect(peer: PeerId)
    | Disconnect(peer: PeerId)
    | Receive(message: Message, from: PeerId, validatedAt: int, acceptedAt: int)

  function Max(a: int, b: int): int { if a >= b then a else b }

  function Ids(seen: Seen): set<MessageId> { set e | e in seen :: e.id }

  function ReceiveOutcome(s: State, e: Event, maxEntries: nat): Outcome
    requires e.Receive?
  {
    var m := e.message;
    var v := Validate(m, e.validatedAt);
    if v.Rejected? then v
    else if m.sender != e.from then Rejected(SenderMismatch)
    else if !Accept(s.seen, m, e.acceptedAt, maxEntries).1 then Rejected(Duplicate)
    else if e.from !in s.connections then Rejected(MissingConnection)
    else Delivered
  }

  /** The message reaches the table. */
  predicate Checked(e: Event) {
    e.Receive? && Validate(e.message, e.validatedAt).Delivered? && e.message.sender == e.from
  }

  /** A message is handed on exactly when that is the outcome; receiving changes no connection. */
  lemma DeliversIff(s: State, e: Event, maxEntries: nat, p: PeerId)
    requires e.Receive?
    ensures var t := Step(s, e, maxEntries);
            && t.delivered == s.delivered + (if ReceiveOutcome(s, e, maxEntries) == Delivered then [e.message] else [])
            && t.connections == s.connections
    ensures Step(s, Connect(p), maxEntries) == s.(connections := s.connections + {p})
    ensures Step(s, Disconnect(p), maxEntries) == s.(connections := s.connections - {p})
  {
    hide Validate, Accept, Pruned;
    assert s.delivered + [] == s.delivered;
  }

  /** What a receiver answers, in the order of the tests: a message that fails validation, or comes from another than
      its sender, or whose id is in the table unexpired, or for which there is no connection, is refused. */
  lemma OutcomeIs(s: State, e: Event, maxEntries: nat)
    requires e.Receive?
    ensures var m, r := e.message, ReceiveOutcome(s, e, maxEntries);
            var known := exists x <- s.seen :: x.id == m.id && x.expiresAt >= e.acceptedAt;
            r == if Validate(m, e.validatedAt) != Delivered then Validate(m, e.validatedAt)
                 else if m.sender != e.from then Rejected(SenderMismatch)
                 else if known then Rejected(Duplicate)
                 else if e.from !in s.connections then Rejected(MissingConnection)
                 else Delivered
  {
    PrunedIs(s.seen, e.acceptedAt);
    hide Validate, Pruned, Oldest;
  }

  function Step(s: State, e: Event, maxEntries: nat): State {
    match e
    case Connect(peer) => s.(connections := s.connections + {peer})
    case Disconnect(peer) => s.(connections := s.connections - {peer})
    case Receive(m, from, validatedAt, acceptedAt) =>
      var t := s.(clock := Max(s.clock, acceptedAt));
      if !Checked(e) then t
      else
        var (seen, isNew) := Accept(s.seen, m, acceptedAt, maxEntries);
        if !isNew then t.(seen := seen)
        else
          t.(seen := seen,
             accepted := s.accepted + [Entry(m.id, m.ExpiresAt())],
             evicted := s.evicted + (Ids(Pruned(s.seen, acceptedAt)) + {m.id} - Ids(seen)),
             delivered := if from in s.connections then s.delivered + [m] else s.delivered)
  }

  const Init: State := State({}, [], [], [], {}, 0)

  function Run(events: seq<Event>, maxEntries: nat): State {
    if events == [] then Init else Step(Run(events[..|events| - 1], maxEntries), events[|events| - 1], maxEntries)
  }

  // ---------- The receiving transport ----------

  class InMemoryPeerTransport {
    const localPeerId: PeerId
    const deduplicator: NetworkMessageDeduplicator
    var connections: map<PeerId, int>  // lastSeenAt
    var delivered: seq<Message>

    constructor (localPeerId: PeerId, maxEntries: nat)
      ensures fresh(deduplicator) && deduplicator.seen == [] && deduplicator.maxEntries == maxEntries
      ensures connections == map[] && delivered == [] && this.localPeerId == localPeerId
    {
      this.localPeerId := localPeerId;
      deduplicator := new NetworkMessageDeduplicator(maxEntries);
      connections, delivered := map[], [];
    }

    /** The handlers are given the message exactly when the outcome is `Delivered`. */
    method ReceiveMessage(m: Message, from: PeerId, validatedAt: int, acceptedAt: int) returns (outcome: Outcome)
      modifies this, deduplicator
      ensures forall s: State | s.seen == old(deduplicator.seen) && s.connections == old(connections.Keys)
                             && s.delivered == old(delivered) ::
                var e := Receive(m, from, validatedAt, acceptedAt);
                var t := Step(s, e, deduplicator.maxEntries);
                && outcome == ReceiveOutcome(s, e, deduplicator.maxEntries)
                && deduplicator.seen == t.seen && connections.Keys == t.connections && delivered == t.delivered
      ensures connections == if outcome.Delivered? then old(connections)[from := acceptedAt] else old(connections)
    {
      hide Accept, Pruned;
      var validation := Validate(m, validatedAt);
      if validation.Rejected? {
        return validation;
      }
      if m.sender != from {
        return Rejected(SenderMismatch);
      }
      var accepted := deduplicator.AcceptMessage(m, acceptedAt);
      if !accepted {
        return Rejected(Duplicate);
      }
      if from !in connections {
        return Rejected(MissingConnection);
      }
      connections := connections[from := acceptedAt];
      delivered := delivered + [m];
      return Delivered;
    }
  }

  // ---------- The table over time ----------

  predicate DistinctIds(seen: Seen) {
    forall i, j | 0 <= i < j < |seen| :: seen[i].id != seen[j].id
  }

  lemma {:induction false} PrunedIs(seen: Seen, now: int)
    ensures forall e <- Pruned(seen, now) :: e in seen && e.expiresAt >= now
    ensures forall e <- seen :: e.expiresAt >= now ==> e in Pruned(seen, now)
    ensures DistinctIds(seen) ==> DistinctIds(Pruned(seen, now))
    ensures |Pruned(seen, now)| <= |seen|
  {
    if seen != [] {
      PrunedIs(seen[1..], now);
      assert seen == [seen[0]] + seen[1..];
      assert DistinctIds(seen) ==> DistinctIds(seen[1..]);
      var rest := Pruned(seen[1..], now);
      if DistinctIds(seen) && seen[0].expiresAt >= now {
        forall j | 0 <= j < |rest| ensures rest[j].id != seen[0].id {
          assert rest[j] in seen[1..];
        }
      }
    }
  }

  /** Entries of different ids, all of them entered at some time. */
  ghost predicate EntriesOk(seen: Seen, accepted: seq<Entry>) {
    DistinctIds(seen) && forall e <- seen :: e in accepted
  }

  /** What was entered is in the table, or its id was pushed out of it, or it has expired. */
  ghost predicate Inv(s: State, maxEntries: nat) {
    && EntriesOk(s.seen, s.accepted) && |s.seen| <= maxEntries
    && (forall x <- s.accepted :: x in s.seen || x.id in s.evicted || x.expiresAt < s.clock)
  }

  lemma AppendEntry(p: Seen, accepted: seq<Entry>, x: Entry)
    requires EntriesOk(p, accepted) && !Has(p, x.id)
    ensures EntriesOk(p + [x], accepted + [x])
  {
    forall j | 0 <= j < |p| ensures p[j].id != x.id {
      assert p[j] in p;
    }
  }

  lemma DropEntry(q: Seen, k: nat, accepted: seq<Entry>)
    requires k < |q| && EntriesOk(q, accepted)
    ensures EntriesOk(Without(q, k), accepted) && |Without(q, k)| == |q| - 1
    ensures forall x <- q :: x in Without(q, k) || x.id !in Ids(Without(q, k))
  {
    var r := Without(q, k);
    assert forall i | 0 <= i < |r| :: r[i] == q[if i < k then i else i + 1];
    forall x <- q ensures x in r || x.id !in Ids(r) {
      var i :| 0 <= i < |q| && q[i] == x;
      if i != k {
        assert x == r[if i < k then i else i - 1];
      }
    }
  }

  lemma AcceptTable(s: State, m: Message, now: int, maxEntries: nat)
    requires EntriesOk(s.seen, s.accepted) && |s.seen| <= maxEntries
    ensures var (seen, isNew) := Accept(s.seen, m, now, maxEntries);
            && EntriesOk(seen, if isNew then s.accepted + [Entry(m.id, m.ExpiresAt())] else s.accepted)
            && |seen| <= maxEntries
            && (forall x <- Pruned(s.seen, now) :: x in seen || x.id !in Ids(seen))
            && (isNew ==> Entry(m.id, m.ExpiresAt()) in seen || m.id !in Ids(seen))
  {
    PrunedIs(s.seen, now);
    var p := Pruned(s.seen, now);
    assert EntriesOk(p, s.accepted);
    hide Pruned, Has, EntriesOk, Oldest, Without;
    if !Has(p, m.id) {
      var x := Entry(m.id, m.ExpiresAt());
      AppendEntry(p, s.accepted, x);
      var q := p + [x];
      assert x in q && forall y <- p :: y in q;
      if |q| > maxEntries {
        DropEntry(q, Oldest(q), s.accepted + [x]);
      }
    }
  }

  /** Over any events at all: whatever the clock does and whatever the messages of one id say. */
  lemma StepKeeps(s: State, e: Event, maxEntries: nat)
    requires Inv(s, maxEntries)
    ensures Inv(Step(s, e, maxEntries), maxEntries)
  {
    if e.Receive? && Checked(e) {
      var t, m := Step(s, e, maxEntries), e.message;
      AcceptTable(s, m, e.acceptedAt, maxEntries);
      PrunedIs(s.seen, e.acceptedAt);
      hide Pruned, EntriesOk;
      forall x <- t.accepted ensures x in t.seen || x.id in t.evicted || x.expiresAt < t.clock {
        if x in s.accepted && x in s.seen && x.expiresAt >= e.acceptedAt {
          assert x in Pruned(s.seen, e.acceptedAt);
          assert x.id in Ids(Pruned(s.seen, e.acceptedAt));
        }
      }
    }
  }

  lemma {:induction false} RunKeeps(events: seq<Event>, maxEntries: nat)
    ensures Inv(Run(events, maxEntries), maxEntries)
  {
    if events != [] {
      hide Step, Inv;
      RunKeeps(events[..|events| - 1], maxEntries);
      StepKeeps(Run(events[..|events| - 1], maxEntries), events[|events| - 1], maxEntries);
    } else {
      assert Inv(Init, maxEntries);
    }
  }

  /** In any run, with any clock: a checked message is entered, again if its id was before, exactly when the table
      has no entry for the id whose own expiry has not passed. If it is, then every earlier entry of the id was
      pushed out or is past the expiry it was entered with. */
  lemma AcceptedAgain(events: seq<Event>, e: Event, maxEntries: nat)
    requires Checked(e)
    ensures var s := Run(events, maxEntries);
            && (Accept(s.seen, e.message, e.acceptedAt, maxEntries).1
                <==> forall x <- s.seen :: x.id == e.message.id ==> x.expiresAt < e.acceptedAt)
            && (Accept(s.seen, e.message, e.acceptedAt, maxEntries).1 ==>
                  forall x <- s.accepted :: x.id == e.message.id ==>
                    x.id in s.evicted || x.expiresAt < Max(s.clock, e.acceptedAt))
  {
    RunKeeps(events, maxEntries);
    hide Run;
    PrunedIs(Run(events, maxEntries).seen, e.acceptedAt);
  }

  // ---------- At most once ----------

  /** The clock never goes back, and an id does not come again with a later expiry. */
  predicate Timed(s: State, e: Event) {
    e.Receive? ==>
      && s.clock <= e.validatedAt <= e.acceptedAt
      && forall x <- s.accepted :: x.id == e.message.id ==> e.message.ExpiresAt() <= x.expiresAt
  }

  /** The message does not expire between the two clock readings. */
  predicate NoStraddle(e: Event) {
    Checked(e) ==> e.acceptedAt <= e.message.ExpiresAt()
  }

  predicate NoRepeats(ids: seq<MessageId>) {
    forall i, j | 0 <= i < j < |ids| :: ids[i] != ids[j]
  }

  function DeliveredIds(ms: seq<Message>): seq<MessageId> {
    if ms == [] then [] else DeliveredIds(ms[..|ms| - 1]) + [ms[|ms| - 1].id]
  }

  /** The events of a run, each in the state it meets. */
  ghost predicate RunTimed(events: seq<Event>, maxEntries: nat) {
    forall k | 0 <= k < |events| :: Timed(Run(events[..k], maxEntries), events[k])
  }

  lemma RunPrefix(events: seq<Event>, maxEntries: nat)
    requires events != [] && RunTimed(events, maxEntries)
    ensures var front := events[..|events| - 1];
            RunTimed(front, maxEntries) && Timed(Run(front, maxEntries), events[|events| - 1])
  {
    hide Run;
    var front := events[..|events| - 1];
    forall k | 0 <= k < |front| ensures Timed(Run(front[..k], maxEntries), front[k]) {
      assert front[..k] == events[..k];
    }
  }

  /** Delivered ids are among the entered ones; without repeats there, none here. */
  ghost predicate DeliveredOk(s: State) {
    && (forall m <- s.delivered :: Has(s.accepted, m.id))
    && (DistinctIds(s.accepted) ==> NoRepeats(DeliveredIds(s.delivered)))
  }

  lemma {:induction false} DeliveredIdsAre(ms: seq<Message>)
    ensures forall id :: id in DeliveredIds(ms) <==> exists m <- ms :: m.id == id
  {
    if ms != [] {
      DeliveredIdsAre(ms[..|ms| - 1]);
      assert ms == ms[..|ms| - 1] + [ms[|ms| - 1]];
    }
  }

  lemma {:induction false} RunDelivered(events: seq<Event>, maxEntries: nat)
    ensures DeliveredOk(Run(events, maxEntries))
  {
    if events != [] {
      hide Step, DeliveredOk;
      RunDelivered(events[..|events| - 1], maxEntries);
      StepDelivered(Run(events[..|events| - 1], maxEntries), events[|events| - 1], maxEntries);
    } else {
      assert DeliveredOk(Init);
    }
  }

  lemma AppendNoRepeats(ids: seq<MessageId>, id: MessageId)
    requires NoRepeats(ids) && id !in ids
    ensures NoRepeats(ids + [id])
  {
  }

  lemma AppendDistinct(q: seq<Entry>, x: Entry)
    ensures DistinctIds(q + [x]) <==> DistinctIds(q) && !Has(q, x.id)
  {
    var r := q + [x];
    assert forall i | 0 <= i < |q| :: r[i] == q[i];
    assert r[|q|] == x;
  }

  lemma StepDelivered(s: State, e: Event, maxEntries: nat)
    requires DeliveredOk(s)
    ensures DeliveredOk(Step(s, e, maxEntries))
  {
    hide Accept, DistinctIds;
    var t := Step(s, e, maxEntries);
    if t.accepted != s.accepted {
      var x := Entry(e.message.id, e.message.ExpiresAt());
      assert t.accepted == s.accepted + [x] && x in t.accepted;
      AppendDistinct(s.accepted, x);
      if t.delivered != s.delivered {
        assert t.delivered == s.delivered + [e.message];
        assert t.delivered[..|t.delivered| - 1] == s.delivered;
        DeliveredIdsAre(s.delivered);
        if DistinctIds(t.accepted) {
          AppendNoRepeats(DeliveredIds(s.delivered), e.message.id);
        }
      }
    }
  }

  lemma StepEvicted(s: State, e: Event, maxEntries: nat)
    ensures s.evicted <= Step(s, e, maxEntries).evicted
  {
  }

  /** A repeated id is refused while its first entry is there, and it is there until the message has expired. */
  lemma RepeatRefused(s: State, e: Event, maxEntries: nat)
    requires Inv(s, maxEntries) && Timed(s, e) && NoStraddle(e) && Checked(e)
    requires Has(s.accepted, e.message.id) && e.message.id !in s.evicted
    ensures !Accept(s.seen, e.message, e.acceptedAt, maxEntries).1
  {
    var x :| x in s.accepted && x.id == e.message.id;
    assert x in s.seen && x.expiresAt >= e.acceptedAt;
    PrunedIs(s.seen, e.acceptedAt);
    assert x in Pruned(s.seen, e.acceptedAt);
  }

  /** While nothing is pushed out and no receive straddles an expiry, no id is accepted or delivered twice. */
  lemma {:induction false} AtMostOnce(events: seq<Event>, maxEntries: nat)
    requires RunTimed(events, maxEntries) && (forall e <- events :: NoStraddle(e))
    requires Run(events, maxEntries).evicted == {}
    ensures DistinctIds(Run(events, maxEntries).accepted)
    ensures NoRepeats(DeliveredIds(Run(events, maxEntries).delivered))
  {
    if events != [] {
      hide Inv, DistinctIds, NoRepeats, Timed, NoStraddle, Accept, Has;
      var front, e := events[..|events| - 1], events[|events| - 1];
      var s := Run(front, maxEntries);
      RunPrefix(events, maxEntries);
      RunKeeps(front, maxEntries);
      StepEvicted(s, e, maxEntries);
      AtMostOnce(front, maxEntries);
      assert NoStraddle(e);
      if Checked(e) {
        AppendDistinct(s.accepted, Entry(e.message.id, e.message.ExpiresAt()));
        if Has(s.accepted, e.message.id) {
          RepeatRefused(s, e, maxEntries);
        }
      }
    }
    RunDelivered(events, maxEntries);
  }

  // ---------- Room in the table ----------

  /** Entered ids whose entries have not expired. */
  ghost function Unexpired(s: State): set<MessageId> {
    UnexpiredAt(s.accepted, s.clock)
  }

  lemma {:induction false} DistinctCount(seen: Seen)
    requires DistinctIds(seen)
    ensures |Ids(seen)| == |seen|
  {
    if seen != [] {
      DistinctCount(seen[1..]);
      assert seen == [seen[0]] + seen[1..];
      assert Ids(seen) == {seen[0].id} + Ids(seen[1..]);
    }
  }

  lemma SubsetCount(a: set<MessageId>, b: set<MessageId>)
    requires a <= b
    ensures |a| <= |b|
  {
    assert b == a + (b - a);
  }

  ghost function UnexpiredAt(accepted: seq<Entry>, now: int): set<MessageId> {
    set x | x in accepted && x.expiresAt >= now :: x.id
  }

  lemma RoomForIds(s: State, x: Entry, now: int)
    requires EntriesOk(s.seen, s.accepted) && !Has(Pruned(s.seen, now), x.id) && x.expiresAt >= now
    ensures var q := Pruned(s.seen, now) + [x];
            |Ids(q)| == |q| && Ids(q) <= UnexpiredAt(s.accepted + [x], now)
  {
    var p := Pruned(s.seen, now);
    PrunedIs(s.seen, now);
    hide Pruned;
    AppendEntry(p, s.accepted, x);
    DistinctCount(p + [x]);
  }

  lemma RoomToAccept(s: State, e: Event, maxEntries: nat)
    requires Inv(s, maxEntries) && Timed(s, e) && NoStraddle(e)
    requires |Unexpired(Step(s, e, maxEntries))| <= maxEntries
    ensures Step(s, e, maxEntries).evicted == s.evicted
  {
    var t := Step(s, e, maxEntries);
    if Checked(e) && Accept(s.seen, e.message, e.acceptedAt, maxEntries).1 {
      var m, p := e.message, Pruned(s.seen, e.acceptedAt);
      var x := Entry(m.id, m.ExpiresAt());
      var q := p + [x];
      assert t.accepted == s.accepted + [x] && t.clock == e.acceptedAt;
      NewIds(p, x);
      RoomForIds(s, x, e.acceptedAt);
      SubsetCount(Ids(q), Unexpired(t));
    }
  }

  lemma NewIds(p: Seen, x: Entry)
    ensures Ids(p + [x]) == Ids(p) + {x.id}
  {
    assert forall y <- p :: y in p + [x];
    assert x in p + [x];
  }

  /** If at most `maxEntries` entered ids are unexpired at any time, nothing is ever pushed out,
      so every id is delivered at most once over the whole run. */
  lemma {:induction false} AtMostOnceWithRoom(events: seq<Event>, maxEntries: nat)
    requires RunTimed(events, maxEntries) && (forall e <- events :: NoStraddle(e))
    requires forall k | 0 <= k <= |events| :: |Unexpired(Run(events[..k], maxEntries))| <= maxEntries
    ensures Run(events, maxEntries).evicted == {}
    ensures NoRepeats(DeliveredIds(Run(events, maxEntries).delivered))
  {
    if events != [] {
      hide Step, Inv, Timed, NoStraddle, Unexpired, NoRepeats;
      var front, e := events[..|events| - 1], events[|events| - 1];
      RunPrefix(events, maxEntries);
      RunKeeps(front, maxEntries);
      forall k | 0 <= k <= |front| ensures |Unexpired(Run(front[..k], maxEntries))| <= maxEntries {
        assert front[..k] == events[..k];
      }
      AtMostOnceWithRoom(front, maxEntries);
      assert events[..|events|] == events && NoStraddle(e);
      RoomToAccept(Run(front, maxEntries), e, maxEntries);
    }
    AtMostOnce(events, maxEntries);
  }

  lemma RunAppend(events: seq<Event>, e: Event, maxEntries: nat)
    ensures Run(events + [e], maxEntries) == Step(Run(events, maxEntries), e, maxEntries)
  {
    assert (events + [e])[..|events|] == events;
  }

  /** Three receipts of the run below: two different ids, the first one's message again. */
  predicate PushOut(e1: Event, e2: Event, e3: Event) {
    && Checked(e1) && Checked(e2) && Checked(e3)
    && e1.from == e2.from == e3.from && e3.message == e1.message
    && e1.message.id != e2.message.id && e1.message.ExpiresAt() <= e2.message.ExpiresAt()
    && e2.acceptedAt <= e1.message.ExpiresAt() && e3.acceptedAt <= e2.message.ExpiresAt()
  }

  /** With a table of one entry, any second message expiring no sooner pushes the first out, and the first is
      delivered again. */
  lemma EvictionRepeats(e1: Event, e2: Event, e3: Event)
    requires PushOut(e1, e2, e3)
    ensures var c := Connect(e1.from);
            Run([c] + [e1] + [e2] + [e3], 1).delivered == [e1.message, e2.message, e1.message]
  {
    var c := Connect(e1.from);
    var s := Step(Init, c, 1);
    assert Run([], 1) == Init && [] + [c] == [c];
    assert e1.from in s.connections && s.seen == [] && s.delivered == [];
    hide Run, Step, PushOut, Accept;
    EvictionSteps(s, e1, e2, e3);
    RunAppend([], c, 1);
    RunAppend([c], e1, 1);
    RunAppend([c] + [e1], e2, 1);
    RunAppend([c] + [e1] + [e2], e3, 1);
  }

  lemma EvictionSteps(s: State, e1: Event, e2: Event, e3: Event)
    requires PushOut(e1, e2, e3) && e1.from in s.connections && s.seen == [] && s.delivered == []
    ensures Step(Step(Step(s, e1, 1), e2, 1), e3, 1).delivered == [e1.message, e2.message, e1.message]
  {
    assert e1.Receive? && e2.Receive?;
    hide Step, Checked, Message.ExpiresAt;
    FirstEntry(s, e1);
    var t := Step(s, e1, 1);
    SecondPushesOut(t, e2);
    var u := Step(t, e2, 1);
    SecondPushesOut(u, e3);
    assert t.delivered == [e1.message] && u.delivered == [e1.message] + [e2.message];
  }

  /** Such receipts exist: all valid, none expired when it comes. */
  lemma EvictionHappens()
    ensures var a, b := Message(1, "m", "p", 0, 10, 0), Message(1, "n", "p", 1, 10, 0);
            PushOut(Receive(a, "p", 0, 0), Receive(b, "p", 1, 1), Receive(a, "p", 2, 2))
  {
    assert "m"[0] != "n"[0];
  }

  lemma FirstEntry(s: State, e: Event)
    requires s.seen == [] && Checked(e) && e.from in s.connections
    ensures var t := Step(s, e, 1);
            t.seen == [Entry(e.message.id, e.message.ExpiresAt())] && t.delivered == s.delivered + [e.message]
            && t.connections == s.connections
  {
  }

  lemma SecondPushesOut(s: State, e: Event)
    requires |s.seen| == 1 && Checked(e) && e.from in s.connections && e.acceptedAt <= s.seen[0].expiresAt
    requires e.message.id != s.seen[0].id
    ensures var t := Step(s, e, 1);
            t.delivered == s.delivered + [e.message] && t.connections == s.connections && |t.seen| == 1
            && (s.seen[0].expiresAt <= e.message.ExpiresAt() ==> t.seen == [Entry(e.message.id, e.message.ExpiresAt())])
  {
    assert s.seen[1..] == [] && s.seen == [s.seen[0]];
    assert Pruned(s.seen, e.acceptedAt) == s.seen;
    var entry := Entry(e.message.id, e.message.ExpiresAt());
    var q := s.seen + [entry];
    assert q[1..] == [entry];
  }

  /** A receive whose second clock reading is past the expiry takes a message twice. */
  lemma StraddleRepeats(s: State, m: Message, maxEntries: nat)
    requires s.seen == [Entry(m.id, m.ExpiresAt())] && m.sender in s.connections
    requires Validate(m, m.ExpiresAt()).Delivered? && maxEntries > 0
    ensures Step(s, Receive(m, m.sender, m.ExpiresAt(), m.ExpiresAt() + 1), maxEntries).delivered == s.delivered + [m]
  {
    assert s.seen[1..] == [];
    assert Pruned(s.seen, m.ExpiresAt() + 1) == [];
  }
}