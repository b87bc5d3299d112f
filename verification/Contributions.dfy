/** What peers have contributed, counted twice over: a ledger of entries, and running counters per peer.
    src/contribution/ContributionEngine.ts, ContributionEvents.ts, ContributionLedger.ts, ContributionMetrics.ts */
module Contributions {
  import opened Buckets
  import opened OrderedMaps
  import opened Prelude

  type PeerId = string

  datatype Kind =
    | StorageShared | BandwidthShared | ChunkServed | ChunkDownloaded | PostReplicated | MediaReplicated | Uptime
    | PeerConnected | PeerDisconnected | UploadFinished | DownloadFinished | RequestReceived | DataValidated
    | InvalidData | SybilDetected | ManipulationDetected

  /** The canonical text of an event's metadata record. */
  type Metadata = Option<string>

  /** The truncated hash of an event's content, taken as the content itself. */
  datatype EventId = EventId(kind: Kind, peer: PeerId, value: int, metadata: Metadata)

  datatype Event = Event(id: EventId, timestamp: int)

  datatype Entry = Entry(
    peer: PeerId, kind: Kind, timestamp: int, value: int, description: string, metadata: Metadata,
    eventId: Option<EventId>)

  /** The ledger's own hash: of the event id when there is one, else of the content. */
  datatype EntryId =
    | ByEvent(event: EventId)
    | ByContent(peer: PeerId, kind: Kind, value: int, description: string, metadata: Metadata)

  datatype AppendResult =
    | Inserted(entry: Entry)
    | Duplicate(entry: Entry)
    | Conflict(existing: Entry)

  datatype Metrics = Metrics(
    storageShared: int,
    bandwidthShared: int,
    chunksServed: int,
    chunksDownloaded: int,
    postsReplicated: int,
    mediaReplicated: int,
    uptime: int,
    successfulUploads: int,
    successfulDownloads: int,
    requestsReceived: int)

  datatype Score = Score(
    peer: PeerId, total: real, storage: real, bandwidth: real, replication: real, uptime: real, reliability: real)

  datatype State = State(
    events: seq<Event>,
    ledger: OrderedMap<EntryId, Entry>,
    metrics: OrderedMap<PeerId, Metrics>,
    scores: map<PeerId, Score>)

  datatype Action =
    | Emit(id: EventId, now: int)
    | GetMetrics(peer: PeerId)
    | GetScore(peer: PeerId)
    | ResetPeer(peer: PeerId)
    | ClearAll

  const Fresh: State := State([], NoEntries(), NoEntries(), map[])
  const Zero: Metrics := Metrics(0, 0, 0, 0, 0, 0, 0, 0, 0, 0)

  // ---------- Ledger ----------

  function DescriptionOf(kind: Kind): string {
    match kind
    case StorageShared => "Storage shared"
    case BandwidthShared => "Bandwidth shared"
    case ChunkServed => "Chunk served"
    case ChunkDownloaded => "Chunk downloaded"
    case PostReplicated => "Post replicated"
    case MediaReplicated => "Media replicated"
    case Uptime => "Uptime recorded"
    case PeerConnected => "Peer connected"
    case PeerDisconnected => "Peer disconnected"
    case UploadFinished => "Upload finished"
    case DownloadFinished => "Download finished"
    case RequestReceived => "Request received"
    case DataValidated => "Data validated"
    case InvalidData => "Invalid data detected"
    case SybilDetected => "Sybil attack detected"
    case ManipulationDetected => "Manipulation detected"
  }

  function EntryIdOf(e: Entry): EntryId {
    if e.eventId.Some? then ByEvent(e.eventId.value) else ByContent(e.peer, e.kind, e.value, e.description, e.metadata)
  }

  function Append(ledger: OrderedMap<EntryId, Entry>, e: Entry): (OrderedMap<EntryId, Entry>, AppendResult) {
    var id := EntryIdOf(e);
    if id in ledger.table then
      var existing := ledger.table[id];
      (ledger, if existing.(timestamp := 0) == e.(timestamp := 0) then Duplicate(existing) else Conflict(existing))
    else (Set(ledger, id, e), Inserted(e))
  }

  /** An entry is inserted exactly if its id is new; an entry found under its id counts as the same if it differs in the
      time at most. */
  lemma AppendIff(ledger: OrderedMap<EntryId, Entry>, e: Entry)
    ensures var (after, r) := Append(ledger, e);
            var id := EntryIdOf(e);
            && (r.Inserted? <==> id !in ledger.table)
            && (r.Inserted? ==>
                  r.entry == e && after.table == ledger.table[id := e] && after.order == ledger.order + [id])
            && (!r.Inserted? ==> after == ledger)
            && (r.Duplicate? <==>
                  && id in ledger.table
                  && var x := ledger.table[id];
                     && x.peer == e.peer && x.kind == e.kind && x.value == e.value && x.description == e.description
                     && x.metadata == e.metadata && x.eventId == e.eventId)
  {
  }

  /** The ids in `order` whose entries belong to other peers. */
  function Others(table: map<EntryId, Entry>, order: seq<EntryId>, p: PeerId): seq<EntryId> {
    if order == [] then []
    else
      var last := order[|order| - 1];
      Others(table, order[..|order| - 1], p) + (if last in table && table[last].peer == p then [] else [last])
  }

  function WithoutPeer(ledger: OrderedMap<EntryId, Entry>, p: PeerId): OrderedMap<EntryId, Entry> {
    OrderedMap(map id | id in ledger.table && ledger.table[id].peer != p :: ledger.table[id],
               Others(ledger.table, ledger.order, p))
  }

  // ---------- Metrics ----------

  function Plus(a: Metrics, b: Metrics): Metrics {
    Metrics(a.storageShared + b.storageShared, a.bandwidthShared + b.bandwidthShared,
            a.chunksServed + b.chunksServed, a.chunksDownloaded + b.chunksDownloaded,
            a.postsReplicated + b.postsReplicated, a.mediaReplicated + b.mediaReplicated, a.uptime + b.uptime,
            a.successfulUploads + b.successfulUploads, a.successfulDownloads + b.successfulDownloads,
            a.requestsReceived + b.requestsReceived)
  }

  /** What one event adds: amounts for storage, bandwidth and uptime, one for the things that are counted. */
  function Delta(kind: Kind, value: int): Metrics {
    match kind
    case StorageShared => Zero.(storageShared := value)
    case BandwidthShared => Zero.(bandwidthShared := value)
    case ChunkServed => Zero.(chunksServed := 1)
    case ChunkDownloaded => Zero.(chunksDownloaded := 1)
    case PostReplicated => Zero.(postsReplicated := 1)
    case MediaReplicated => Zero.(mediaReplicated := 1)
    case Uptime => Zero.(uptime := value)
    case UploadFinished => Zero.(successfulUploads := 1)
    case DownloadFinished => Zero.(successfulDownloads := 1)
    case RequestReceived => Zero.(requestsReceived := 1)
    case _ => Zero
  }

  /** A peer without a record counts as all zero. */
  function MetricsOf(metrics: OrderedMap<PeerId, Metrics>, p: PeerId): Metrics {
    if p in metrics.table then metrics.table[p] else Zero
  }

  /** Reading a peer's metrics makes the record. */
  function Touch(metrics: OrderedMap<PeerId, Metrics>, p: PeerId): OrderedMap<PeerId, Metrics> {
    if p in metrics.table then metrics else Set(metrics, p, Zero)
  }

  function AddMetrics(metrics: OrderedMap<PeerId, Metrics>, kind: Kind, p: PeerId, value: int)
    : OrderedMap<PeerId, Metrics>
  {
    Set(Touch(metrics, p), p, Plus(MetricsOf(metrics, p), Delta(kind, value)))
  }

  // ---------- Scores ----------

  function Min(a: real, b: real): real { if a <= b then a else b }

  function ScoreOf(p: PeerId, m: Metrics): Score {
    var gigabyte := 1073741824.0;
    var storage := Min(100.0, m.storageShared as real / gigabyte * 100.0);
    var bandwidth := Min(100.0, m.bandwidthShared as real / gigabyte / 10.0 * 100.0);
    var replication :=
      Min(50.0, m.chunksServed as real * 0.1) + Min(30.0, m.postsReplicated as real * 2.0)
      + Min(20.0, m.mediaReplicated as real * 5.0);
    var uptime := Min(100.0, m.uptime as real / 3600.0 / 24.0 * 100.0);
    var reliability :=
      if m.requestsReceived == 0 then 0.0
      else (m.successfulUploads + m.successfulDownloads) as real / m.requestsReceived as real * 100.0;
    Score(p, storage * 0.3 + bandwidth * 0.25 + replication * 0.2 + uptime * 0.15 + reliability * 0.1,
          storage, bandwidth, replication, uptime, reliability)
  }

  /** The parts of a score: a hundred for one gigabyte stored, ten transferred, a day up, and for 500 chunks, 15 posts
      and 4 media together; in proportion below, no more above; and the share of requests that led to transfers. */
  lemma ScoreParts(p: PeerId, m: Metrics)
    ensures var x := ScoreOf(p, m);
            && (m.storageShared <= 0x4000_0000 ==> x.storage * 1073741824.0 == m.storageShared as real * 100.0)
            && (m.storageShared >= 0x4000_0000 ==> x.storage == 100.0)
            && (m.bandwidthShared <= 0x2_8000_0000 ==> x.bandwidth * 10737418240.0 == m.bandwidthShared as real * 100.0)
            && (m.bandwidthShared >= 0x2_8000_0000 ==> x.bandwidth == 100.0)
            && (m.uptime <= 86400 ==> x.uptime * 86400.0 == m.uptime as real * 100.0)
            && (m.uptime >= 86400 ==> x.uptime == 100.0)
            && x.replication == AtMost(500, m.chunksServed) / 10.0 + AtMost(15, m.postsReplicated) * 2.0
                              + AtMost(4, m.mediaReplicated) * 5.0
            && (m.requestsReceived == 0 ==> x.reliability == 0.0)
            && (m.requestsReceived != 0 ==>
                  var transfers := m.successfulUploads + m.successfulDownloads;
                  x.reliability * m.requestsReceived as real == transfers as real * 100.0)
            && x.peer == p
  {
    var gigabyte := 1073741824.0;
    Proportion(m.storageShared as real, gigabyte);
    Proportion(m.bandwidthShared as real / gigabyte, 10.0);
    Proportion(m.bandwidthShared as real, gigabyte);
    Proportion(m.uptime as real, 3600.0);
    Proportion(m.uptime as real / 3600.0, 24.0);
    if m.requestsReceived != 0 {
      Proportion((m.successfulUploads + m.successfulDownloads) as real, m.requestsReceived as real);
    }
  }

  function AtMost(limit: int, n: int): real { (if n <= limit then n else limit) as real }

  lemma Proportion(x: real, y: real)
    requires y != 0.0
    ensures x / y * y == x
  {
  }

  /** The total is the average of the parts, with the weights 30, 25, 20, 15 and 10. */
  lemma TotalIs(p: PeerId, m: Metrics)
    ensures var x := ScoreOf(p, m);
            x.total * 100.0 == x.storage * 30.0 + x.bandwidth * 25.0 + x.replication * 20.0 + x.uptime * 15.0
                             + x.reliability * 10.0
  {
  }

  // ---------- Actions ----------

  function HasEvent(events: seq<Event>, id: EventId): bool { exists e <- events :: e.id == id }

  function EntryFor(id: EventId, now: int): Entry {
    Entry(id.peer, id.kind, now, id.value, DescriptionOf(id.kind), id.metadata, Some(id))
  }

  function Recalculate(s: State, p: PeerId): State {
    s.(metrics := Touch(s.metrics, p), scores := s.scores[p := ScoreOf(p, MetricsOf(s.metrics, p))])
  }

  function ProcessEvent(s: State, e: Event): State {
    var (ledger, result) := Append(s.ledger, EntryFor(e.id, e.timestamp));
    if !result.Inserted? then s
    else Recalculate(s.(ledger := ledger, metrics := AddMetrics(s.metrics, e.id.kind, e.id.peer, e.id.value)),
                     e.id.peer)
  }

  function Step(s: State, a: Action): State {
    match a
    case Emit(id, now) =>
      if HasEvent(s.events, id) then s else ProcessEvent(s.(events := s.events + [Event(id, now)]), Event(id, now))
    case GetMetrics(p) => s.(metrics := Touch(s.metrics, p))
    case GetScore(p) => if p in s.scores then s else Recalculate(s, p)
    case ResetPeer(p) => s.(metrics := Set(s.metrics, p, Zero), ledger := WithoutPeer(s.ledger, p),
                            scores := s.scores - {p})
    case ClearAll => Fresh
  }

  function Run(s: State, actions: seq<Action>): State {
    if actions == [] then s else Step(Run(s, actions[..|actions| - 1]), actions[|actions| - 1])
  }

  // ---------- Metrics are the fold of the ledger ----------

  function Contribution(e: Entry, p: PeerId): Metrics { if e.peer == p then Delta(e.kind, e.value) else Zero }

  /** What the entries say about one peer. */
  function Tally(entries: seq<Entry>, p: PeerId): Metrics {
    if entries == [] then Zero else Plus(Tally(entries[..|entries| - 1], p), Contribution(entries[|entries| - 1], p))
  }

  /** The entries of one peer and kind, and what their values add up to. */
  ghost function OfKind(entries: seq<Entry>, p: PeerId, kind: Kind): set<nat> {
    set i | 0 <= i < |entries| && entries[i].peer == p && entries[i].kind == kind
  }

  function SumOfKind(entries: seq<Entry>, p: PeerId, kind: Kind): int {
    if entries == [] then 0
    else
      var first := entries[0];
      (if first.peer == p && first.kind == kind then first.value else 0) + SumOfKind(entries[1..], p, kind)
  }

  lemma {:induction false} SumAppend(entries: seq<Entry>, e: Entry, p: PeerId, kind: Kind)
    ensures SumOfKind(entries + [e], p, kind)
         == SumOfKind(entries, p, kind) + (if e.peer == p && e.kind == kind then e.value else 0)
  {
    if entries != [] {
      SumAppend(entries[1..], e, p, kind);
      assert (entries + [e])[1..] == entries[1..] + [e];
    }
  }

  lemma CountAppend(entries: seq<Entry>, e: Entry, p: PeerId, kind: Kind)
    ensures |OfKind(entries + [e], p, kind)|
         == |OfKind(entries, p, kind)| + (if e.peer == p && e.kind == kind then 1 else 0)
  {
    var n := |entries|;
    assert OfKind(entries + [e], p, kind)
        == OfKind(entries, p, kind) + (if e.peer == p && e.kind == kind then {n} else {});
  }

  /** The counters of a peer: amounts for storage, bandwidth and uptime, and numbers of events for the rest. */
  ghost function Counters(entries: seq<Entry>, p: PeerId): Metrics {
    Metrics(SumOfKind(entries, p, StorageShared), SumOfKind(entries, p, BandwidthShared),
            |OfKind(entries, p, ChunkServed)|, |OfKind(entries, p, ChunkDownloaded)|,
            |OfKind(entries, p, PostReplicated)|, |OfKind(entries, p, MediaReplicated)|,
            SumOfKind(entries, p, Uptime), |OfKind(entries, p, UploadFinished)|,
            |OfKind(entries, p, DownloadFinished)|, |OfKind(entries, p, RequestReceived)|)
  }

  lemma CountersAppend(entries: seq<Entry>, e: Entry, p: PeerId)
    ensures Counters(entries + [e], p) == Plus(Counters(entries, p), Contribution(e, p))
  {
    SumAppend(entries, e, p, StorageShared);
    SumAppend(entries, e, p, BandwidthShared);
    SumAppend(entries, e, p, Uptime);
    CountAppend(entries, e, p, ChunkServed);
    CountAppend(entries, e, p, ChunkDownloaded);
    CountAppend(entries, e, p, PostReplicated);
    CountAppend(entries, e, p, MediaReplicated);
    CountAppend(entries, e, p, UploadFinished);
    CountAppend(entries, e, p, DownloadFinished);
    CountAppend(entries, e, p, RequestReceived);
    hide SumOfKind, OfKind;
  }

  /** The fold of the entries gives each counter its own sum or number. */
  lemma {:induction false} TallyIs(entries: seq<Entry>, p: PeerId)
    ensures Tally(entries, p) == Counters(entries, p)
  {
    hide Plus, Contribution, Counters;
    if entries == [] {
      NoCounters(p);
    } else {
      var front, last := entries[..|entries| - 1], entries[|entries| - 1];
      TallyIs(front, p);
      CountersAppend(front, last, p);
      assert entries == front + [last];
    }
  }

  lemma NoCounters(p: PeerId)
    ensures Counters([], p) == Zero
  {
    assert forall kind :: OfKind([], p, kind) == {};
  }

  /** An entry is filed under its event, and the event was emitted. */
  ghost predicate FromEvents(ledger: OrderedMap<EntryId, Entry>, events: seq<Event>) {
    forall id | id in ledger.table ::
      && id.ByEvent? && ledger.table[id] == EntryFor(id.event, ledger.table[id].timestamp)
      && HasEvent(events, id.event)
  }

  ghost predicate Balanced(ledger: OrderedMap<EntryId, Entry>, metrics: OrderedMap<PeerId, Metrics>) {
    && WellFormed(ledger) && WellFormed(metrics)
    && (forall p :: MetricsOf(metrics, p) == Tally(Values(ledger), p))
    && (forall id | id in ledger.table :: ledger.table[id].peer in metrics.table)
  }

  ghost predicate ScoresCurrent(scores: map<PeerId, Score>, metrics: OrderedMap<PeerId, Metrics>) {
    forall p | p in scores :: scores[p] == ScoreOf(p, MetricsOf(metrics, p))
  }

  ghost predicate Inv(s: State) {
    FromEvents(s.ledger, s.events) && Balanced(s.ledger, s.metrics) && ScoresCurrent(s.scores, s.metrics)
  }

  lemma PlusLaws(a: Metrics, b: Metrics, c: Metrics)
    ensures Plus(a, b) == Plus(b, a) && Plus(Plus(a, b), c) == Plus(Plus(a, c), b) && Plus(a, Zero) == a
    ensures Plus(a, Plus(b, c)) == Plus(Plus(a, b), c)
  {
  }

  lemma ValuesAppend<K, V>(table: map<K, V>, order: seq<K>, k: K)
    requires k in table
    ensures ValuesOf(table, order + [k]) == ValuesOf(table, order) + [table[k]]
  {
    assert (order + [k])[..|order|] == order;
  }

  /** Values depend only on the keys listed. */
  lemma {:induction false} ValuesAgree<K, V>(table: map<K, V>, other: map<K, V>, order: seq<K>)
    requires forall k <- order :: k in table && k in other && table[k] == other[k]
    ensures ValuesOf(table, order) == ValuesOf(other, order)
  {
    if order != [] {
      ValuesAgree(table, other, order[..|order| - 1]);
    }
  }

  lemma AppendValues(ledger: OrderedMap<EntryId, Entry>, id: EntryId, e: Entry)
    requires WellFormed(ledger) && id !in ledger.table
    ensures Values(Set(ledger, id, e)) == Values(ledger) + [e]
  {
    var t := ledger.table[id := e];
    ValuesAppend(t, ledger.order, id);
    ValuesAgree(ledger.table, t, ledger.order);
  }

  lemma TallyAppend(entries: seq<Entry>, e: Entry, p: PeerId)
    ensures Tally(entries + [e], p) == Plus(Tally(entries, p), Contribution(e, p))
  {
    assert (entries + [e])[..|entries|] == entries;
  }

  lemma AddedMetrics(metrics: OrderedMap<PeerId, Metrics>, kind: Kind, p: PeerId, value: int, q: PeerId)
    ensures MetricsOf(AddMetrics(metrics, kind, p, value), q)
         == Plus(MetricsOf(metrics, q), if q == p then Delta(kind, value) else Zero)
  {
    PlusLaws(MetricsOf(metrics, q), Zero, Zero);
    hide Plus, Delta;
  }

  lemma AppendBalanced(ledger: OrderedMap<EntryId, Entry>, metrics: OrderedMap<PeerId, Metrics>, id: EntryId, e: Entry)
    requires Balanced(ledger, metrics) && id !in ledger.table
    ensures Balanced(Set(ledger, id, e), AddMetrics(metrics, e.kind, e.peer, e.value))
  {
    hide Plus, Delta, Values, Tally;
    AppendValues(ledger, id, e);
    var after := AddMetrics(metrics, e.kind, e.peer, e.value);
    forall p ensures MetricsOf(after, p) == Tally(Values(Set(ledger, id, e)), p) {
      TallyAppend(Values(ledger), e, p);
      AddedMetrics(metrics, e.kind, e.peer, e.value, p);
      assert MetricsOf(metrics, p) == Tally(Values(ledger), p);
    }
  }

  lemma TouchBalanced(ledger: OrderedMap<EntryId, Entry>, metrics: OrderedMap<PeerId, Metrics>, p: PeerId)
    requires Balanced(ledger, metrics)
    ensures Balanced(ledger, Touch(metrics, p))
    ensures forall q :: MetricsOf(Touch(metrics, p), q) == MetricsOf(metrics, q)
  {
    hide Tally, Values;
    forall q
      ensures MetricsOf(Touch(metrics, p), q) == MetricsOf(metrics, q) == Tally(Values(ledger), q)
    {
    }
  }

  // ---------- Forgetting a peer ----------

  lemma {:induction false} OthersAre(table: map<EntryId, Entry>, order: seq<EntryId>, p: PeerId)
    ensures forall id :: id in Others(table, order, p) <==> id in order && !(id in table && table[id].peer == p)
  {
    if order != [] {
      OthersAre(table, order[..|order| - 1], p);
      assert order == order[..|order| - 1] + [order[|order| - 1]];
    }
  }

  lemma {:induction false} OthersDistinct(table: map<EntryId, Entry>, order: seq<EntryId>, p: PeerId)
    requires NoDuplicates(order)
    ensures NoDuplicates(Others(table, order, p))
  {
    if order != [] {
      OthersDistinct(table, order[..|order| - 1], p);
      OthersAre(table, order[..|order| - 1], p);
    }
  }

  lemma OthersAppend(table: map<EntryId, Entry>, order: seq<EntryId>, p: PeerId, id: EntryId)
    requires id in table
    ensures var others := Others(table, order, p);
            Others(table, order + [id], p) == if table[id].peer == p then others else others + [id]
  {
    assert (order + [id])[..|order|] == order;
  }

  lemma {:induction false} TallyOthers(table: map<EntryId, Entry>, order: seq<EntryId>, p: PeerId, q: PeerId)
    requires forall id <- order :: id in table
    ensures Tally(ValuesOf(table, Others(table, order, p)), q)
         == if q == p then Zero else Tally(ValuesOf(table, order), q)
  {
    assert Tally([], q) == Zero;
    hide Plus, Delta, Tally;
    if order == [] {
      assert ValuesOf(table, order) == [] == ValuesOf(table, Others(table, order, p));
    } else {
      var front, last := order[..|order| - 1], order[|order| - 1];
      TallyOthers(table, front, p, q);
      assert order == front + [last];
      ValuesAppend(table, front, last);
      OthersAppend(table, front, p, last);
      ValuesAppend(table, Others(table, front, p), last);
      hide Others, ValuesOf;
      TallyAppend(ValuesOf(table, front), table[last], q);
      TallyAppend(ValuesOf(table, Others(table, front, p)), table[last], q);
      PlusLaws(Tally(ValuesOf(table, front), q), Zero, Zero);
      PlusLaws(Zero, Zero, Zero);
    }
  }

  lemma WithoutPeerTally(ledger: OrderedMap<EntryId, Entry>, p: PeerId, q: PeerId)
    requires WellFormed(ledger)
    ensures Tally(Values(WithoutPeer(ledger, p)), q) == if q == p then Zero else Tally(Values(ledger), q)
  {
    var t := WithoutPeer(ledger, p);
    TallyOthers(ledger.table, ledger.order, p, q);
    OthersAre(ledger.table, ledger.order, p);
    ValuesAgree(ledger.table, t.table, t.order);
  }

  lemma ResetBalanced(ledger: OrderedMap<EntryId, Entry>, metrics: OrderedMap<PeerId, Metrics>, p: PeerId)
    requires Balanced(ledger, metrics)
    ensures Balanced(WithoutPeer(ledger, p), Set(metrics, p, Zero))
  {
    hide Tally, Values;
    var t, after := WithoutPeer(ledger, p), Set(metrics, p, Zero);
    OthersAre(ledger.table, ledger.order, p);
    OthersDistinct(ledger.table, ledger.order, p);
    forall q ensures MetricsOf(after, q) == Tally(Values(t), q) {
      WithoutPeerTally(ledger, p, q);
      assert MetricsOf(metrics, q) == Tally(Values(ledger), q);
    }
  }

  // ---------- Every run ----------

  lemma EmitKeeps(s: State, id: EventId, now: int)
    requires Inv(s)
    ensures Inv(Step(s, Emit(id, now)))
    ensures HasEvent(s.events, id) || Step(s, Emit(id, now)).ledger == Set(s.ledger, ByEvent(id), EntryFor(id, now))
  {
    hide Balanced, DescriptionOf, ScoreOf;
    if !HasEvent(s.events, id) {
      var e := Event(id, now);
      var m := AddMetrics(s.metrics, id.kind, id.peer, id.value);
      var l := Set(s.ledger, ByEvent(id), EntryFor(id, now));
      assert ByEvent(id) !in s.ledger.table;
      AppendBalanced(s.ledger, s.metrics, ByEvent(id), EntryFor(id, now));
      TouchBalanced(l, m, id.peer);
      EventsGrow(s.events, e);
      OthersScores(s, id);
    }
  }

  lemma EventsGrow(events: seq<Event>, e: Event)
    ensures forall id :: HasEvent(events + [e], id) <==> HasEvent(events, id) || id == e.id
  {
    forall id ensures HasEvent(events + [e], id) <==> HasEvent(events, id) || id == e.id {
      assert e in events + [e];
    }
  }

  lemma OthersScores(s: State, id: EventId)
    requires ScoresCurrent(s.scores, s.metrics)
    ensures var m := AddMetrics(s.metrics, id.kind, id.peer, id.value);
            ScoresCurrent(s.scores[id.peer := ScoreOf(id.peer, MetricsOf(m, id.peer))], Touch(m, id.peer))
  {
    hide ScoreOf, Plus, Delta;
  }

  lemma StepKeeps(s: State, a: Action)
    requires Inv(s)
    ensures Inv(Step(s, a))
  {
    hide Balanced, EntryFor, ScoreOf;
    match a
    case Emit(id, now) => EmitKeeps(s, id, now);
    case GetMetrics(p) => TouchBalanced(s.ledger, s.metrics, p);
    case GetScore(p) => TouchBalanced(s.ledger, s.metrics, p);
    case ResetPeer(p) => ResetBalanced(s.ledger, s.metrics, p);
    case ClearAll => FreshInv();
  }

  lemma FreshInv()
    ensures Inv(Fresh)
  {
  }

  /** In every run, the counters of every peer are the fold of that peer's ledger entries, and a stored score
      is the score of those counters. */
  lemma {:induction false} MetricsAreFold(actions: seq<Action>)
    ensures Inv(Run(Fresh, actions))
  {
    hide Inv, Step;
    if actions == [] {
      FreshInv();
    } else {
      MetricsAreFold(actions[..|actions| - 1]);
      StepKeeps(Run(Fresh, actions[..|actions| - 1]), actions[|actions| - 1]);
    }
  }

  // ---------- Order and repetition of events do not matter ----------

  predicate Emitted(actions: seq<Action>, id: EventId) { exists a <- actions :: a.Emit? && a.id == id }

  predicate EmittedBy(actions: seq<Action>, p: PeerId) { exists a <- actions :: a.Emit? && a.id.peer == p }

  function PeerDelta(id: EntryId, p: PeerId): Metrics {
    if id.ByEvent? && id.event.peer == p then Delta(id.event.kind, id.event.value) else Zero
  }

  function TallyIds(ids: seq<EntryId>, p: PeerId): Metrics {
    if ids == [] then Zero else Plus(TallyIds(ids[..|ids| - 1], p), PeerDelta(ids[|ids| - 1], p))
  }

  lemma {:induction false} TallyByIds(table: map<EntryId, Entry>, order: seq<EntryId>, p: PeerId)
    requires forall id <- order :: id in table && id.ByEvent? && table[id] == EntryFor(id.event, table[id].timestamp)
    ensures Tally(ValuesOf(table, order), p) == TallyIds(order, p)
  {
    if order != [] {
      var front, last := order[..|order| - 1], order[|order| - 1];
      TallyByIds(table, front, p);
      TallyAppend(ValuesOf(table, front), table[last], p);
    }
  }

  lemma {:induction false} TallyWithout(ids: seq<EntryId>, x: EntryId, p: PeerId)
    requires NoDuplicates(ids) && x in ids
    ensures TallyIds(ids, p) == Plus(TallyIds(Deleted(ids, x), p), PeerDelta(x, p))
  {
    hide Plus, PeerDelta, Deleted;
    var front, last := ids[..|ids| - 1], ids[|ids| - 1];
    assert ids == front + [last];
    DeletedAppend(front, last, x);
    if last == x {
      DeletedAbsent(front, x);
      assert Deleted(ids, x) == front;
    } else {
      var d := Deleted(front, x);
      TallyWithout(front, x, p);
      assert (d + [last])[..|d|] == d;
      PlusLaws(TallyIds(d, p), PeerDelta(x, p), PeerDelta(last, p));
    }
  }

  lemma Inhabited(ids: seq<EntryId>)
    ensures ids == [] || exists id :: id in ids
  {
    assert ids == [] || ids[0] in ids;
  }

  lemma {:induction false} TallySameIds(a: seq<EntryId>, b: seq<EntryId>, p: PeerId)
    requires NoDuplicates(a) && NoDuplicates(b) && forall id :: id in a <==> id in b
    ensures TallyIds(a, p) == TallyIds(b, p)
    decreases |a|
  {
    hide Plus, PeerDelta, Deleted;
    Inhabited(b);
    if a == [] {
      assert b == [];
    } else {
      var front, last := a[..|a| - 1], a[|a| - 1];
      assert a == front + [last];
      TallyWithout(b, last, p);
      DeletedIs(b, last);
      TallySameIds(front, Deleted(b, last), p);
    }
  }

  /** After emits alone, what is stored names exactly what was emitted. */
  ghost predicate Recorded(s: State, emits: seq<Action>) {
    && (forall id :: HasEvent(s.events, id) <==> Emitted(emits, id))
    && (forall id :: ByEvent(id) in s.ledger.table <==> Emitted(emits, id))
    && (forall p :: p in s.scores <==> EmittedBy(emits, p))
  }

  lemma {:induction false} EmitsRecorded(emits: seq<Action>)
    requires forall a <- emits :: a.Emit?
    ensures Recorded(Run(Fresh, emits), emits)
  {
    if emits != [] {
      var front, a := emits[..|emits| - 1], emits[|emits| - 1];
      assert emits == front + [a];
      EmitsRecorded(front);
      MetricsAreFold(front);
      EmitRecorded(Run(Fresh, front), front, a.id, a.now);
    }
  }

  lemma EmitRecorded(s: State, emits: seq<Action>, id: EventId, now: int)
    requires Inv(s) && Recorded(s, emits)
    ensures Recorded(Step(s, Emit(id, now)), emits + [Emit(id, now)])
  {
    hide Inv, HasEvent, EntryFor, ScoreOf, AddMetrics, Emitted, EmittedBy;
    EmittedMore(emits, id, now);
    EmitEffect(s, id, now);
    EventsGrow(s.events, Event(id, now));
  }

  lemma EmittedMore(emits: seq<Action>, id: EventId, now: int)
    ensures forall x :: Emitted(emits + [Emit(id, now)], x) <==> Emitted(emits, x) || x == id
    ensures forall p :: EmittedBy(emits + [Emit(id, now)], p) <==> EmittedBy(emits, p) || p == id.peer
    ensures Emitted(emits, id) ==> EmittedBy(emits, id.peer)
  {
    var more := emits + [Emit(id, now)];
    assert Emit(id, now) in more;
    assert forall a <- emits :: a in more;
  }

  /** An event counts exactly when its content was not emitted before. */
  lemma EmitEffect(s: State, id: EventId, now: int)
    requires Inv(s)
    ensures var t := Step(s, Emit(id, now));
            if HasEvent(s.events, id) then t == s
            else
              && t.events == s.events + [Event(id, now)]
              && t.ledger.table == s.ledger.table[ByEvent(id) := EntryFor(id, now)]
              && t.scores.Keys == s.scores.Keys + {id.peer}
              && MetricsOf(t.metrics, id.peer) == Plus(MetricsOf(s.metrics, id.peer), Delta(id.kind, id.value))
  {
    hide Balanced, ScoresCurrent, ScoreOf, DescriptionOf, Plus, Delta;
  }

  /** The final counters, scores and ledger keys depend only on the set of distinct events emitted. */
  lemma OrderIndependent(a: seq<Action>, b: seq<Action>)
    requires (forall x <- a :: x.Emit?) && forall x <- b :: x.Emit?
    requires forall id :: Emitted(a, id) <==> Emitted(b, id)
    ensures var s, t := Run(Fresh, a), Run(Fresh, b);
            && (forall p :: MetricsOf(s.metrics, p) == MetricsOf(t.metrics, p))
            && s.scores == t.scores && s.ledger.table.Keys == t.ledger.table.Keys
  {
    var s, t := Run(Fresh, a), Run(Fresh, b);
    MetricsAreFold(a);
    MetricsAreFold(b);
    EmitsRecorded(a);
    EmitsRecorded(b);
    hide Run, HasEvent, Tally, TallyIds, ScoreOf;
    SameKeys(s, t);
    forall p ensures MetricsOf(s.metrics, p) == MetricsOf(t.metrics, p) {
      SameMetrics(s, t, p);
    }
    forall p ensures EmittedBy(a, p) <==> EmittedBy(b, p) {
      SameEmitters(a, b, p);
      SameEmitters(b, a, p);
    }
    SameScores(s, t);
  }

  lemma SameEmitters(a: seq<Action>, b: seq<Action>, p: PeerId)
    requires forall id :: Emitted(a, id) ==> Emitted(b, id)
    ensures EmittedBy(a, p) ==> EmittedBy(b, p)
  {
    if EmittedBy(a, p) {
      var x :| x in a && x.Emit? && x.id.peer == p;
      assert Emitted(a, x.id);
    }
  }

  lemma SameKeys(s: State, t: State)
    requires Inv(s) && Inv(t) && forall id :: ByEvent(id) in s.ledger.table <==> ByEvent(id) in t.ledger.table
    ensures s.ledger.table.Keys == t.ledger.table.Keys
  {
    hide Balanced, ScoresCurrent, HasEvent, EntryFor;
    forall id ensures id in s.ledger.table <==> id in t.ledger.table {
    }
  }

  lemma SameMetrics(s: State, t: State, p: PeerId)
    requires Inv(s) && Inv(t) && s.ledger.table.Keys == t.ledger.table.Keys
    ensures MetricsOf(s.metrics, p) == MetricsOf(t.metrics, p)
  {
    hide Tally, TallyIds, ScoresCurrent, HasEvent, EntryFor, MetricsOf;
    TallyByIds(s.ledger.table, s.ledger.order, p);
    TallyByIds(t.ledger.table, t.ledger.order, p);
    TallySameIds(s.ledger.order, t.ledger.order, p);
    assert MetricsOf(s.metrics, p) == Tally(Values(s.ledger), p)
      && MetricsOf(t.metrics, p) == Tally(Values(t.ledger), p);
  }

  lemma SameScores(s: State, t: State)
    requires Inv(s) && Inv(t) && (forall p :: p in s.scores <==> p in t.scores)
    requires forall p :: MetricsOf(s.metrics, p) == MetricsOf(t.metrics, p)
    ensures s.scores == t.scores
  {
    hide Balanced, FromEvents, ScoreOf, MetricsOf;
  }

  /** The other calls, by what they leave: reading counters or a score makes them if there are none, a reset takes one
      peer's entries and score and zeroes its counters, and clearing leaves nothing. */
  lemma CallsLeave(s: State, p: PeerId)
    ensures var t := Step(s, GetMetrics(p));
            && t.events == s.events && t.ledger == s.ledger && t.scores == s.scores
            && t.metrics.table == if p in s.metrics.table then s.metrics.table else s.metrics.table[p := Zero]
    ensures var t := Step(s, GetScore(p));
            && p in t.scores && t.events == s.events && t.ledger == s.ledger
            && (p in s.scores ==> t == s)
            && forall r | r != p :: (r in t.scores <==> r in s.scores) && (r in s.scores ==> t.scores[r] == s.scores[r])
    ensures var t := Step(s, ResetPeer(p));
            && t.events == s.events && t.scores == s.scores - {p} && t.metrics.table == s.metrics.table[p := Zero]
            && t.ledger.table == map id | id in s.ledger.table && s.ledger.table[id].peer != p :: s.ledger.table[id]
    ensures var t := Step(s, ClearAll);
            t.events == [] && t.ledger.table == map[] && t.metrics.table == map[] && t.scores == map[]
  {
    hide Others, ScoreOf;
  }

  // ---------- A reset peer's old events ----------

  /** A reset empties a peer's counters but not the list of events seen: emitting any earlier event again,
      in any order and number, leaves everything as it was, with the counters at zero. */
  lemma {:induction false} ResetForgetsForGood(s: State, p: PeerId, repeats: seq<Action>)
    requires forall a <- repeats :: a.Emit? && HasEvent(s.events, a.id)
    ensures Run(Step(s, ResetPeer(p)), repeats) == Step(s, ResetPeer(p))
    ensures MetricsOf(Run(Step(s, ResetPeer(p)), repeats).metrics, p) == Zero
  {
    if repeats != [] {
      ResetForgetsForGood(s, p, repeats[..|repeats| - 1]);
      assert HasEvent(s.events, repeats[|repeats| - 1].id);
    }
  }

  // ---------- Totals over all peers ----------

  function SumMetrics(ms: seq<Metrics>): Metrics {
    if ms == [] then Zero else Plus(SumMetrics(ms[..|ms| - 1]), ms[|ms| - 1])
  }

  function SumEntries(entries: seq<Entry>): Metrics {
    if entries == [] then Zero
    else Plus(SumEntries(entries[..|entries| - 1]), Delta(entries[|entries| - 1].kind, entries[|entries| - 1].value))
  }

  /** The ledger's total by type. */
  function TotalValue(entries: seq<Entry>, kind: Kind): int {
    if entries == [] then 0
    else
      var last := entries[|entries| - 1];
      TotalValue(entries[..|entries| - 1], kind) + (if last.kind == kind then last.value else 0)
  }

  /** The ledger's entry count by type. */
  function EntryCount(entries: seq<Entry>, kind: Kind): int {
    if entries == [] then 0
    else EntryCount(entries[..|entries| - 1], kind) + (if entries[|entries| - 1].kind == kind then 1 else 0)
  }

  lemma {:induction false} KindTotals(entries: seq<Entry>)
    ensures var sum := SumEntries(entries);
            && sum.storageShared == TotalValue(entries, StorageShared)
            && sum.bandwidthShared == TotalValue(entries, BandwidthShared)
            && sum.uptime == TotalValue(entries, Uptime)
            && sum.chunksServed == EntryCount(entries, ChunkServed)
  {
    if entries != [] {
      KindTotals(entries[..|entries| - 1]);
    }
  }

  function SumTallies(order: seq<PeerId>, entries: seq<Entry>): Metrics {
    if order == [] then Zero else Plus(SumTallies(order[..|order| - 1], entries), Tally(entries, order[|order| - 1]))
  }

  lemma {:induction false} SumTalliesGrows(order: seq<PeerId>, entries: seq<Entry>, e: Entry)
    requires NoDuplicates(order)
    ensures SumTallies(order, entries + [e])
         == if e.peer in order then Plus(SumTallies(order, entries), Delta(e.kind, e.value))
           else SumTallies(order, entries)
  {
    hide Tally, Delta, Plus, SumTallies;
    if order == [] {
      SumTalliesEmpty(entries);
      SumTalliesEmpty(entries + [e]);
    } else {
      var front, last := order[..|order| - 1], order[|order| - 1];
      assert order == front + [last];
      SumTalliesGrows(front, entries, e);
      SumTalliesStep(front, last, entries, e);
    }
  }

  lemma SumTalliesEmpty(entries: seq<Entry>)
    ensures SumTallies([], entries) == Zero
  {
  }

  lemma SumTalliesStep(order: seq<PeerId>, p: PeerId, entries: seq<Entry>, e: Entry)
    requires var s, t := SumTallies(order, entries), SumTallies(order, entries + [e]);
             t == if e.peer in order then Plus(s, Delta(e.kind, e.value)) else s
    requires p !in order
    ensures var s, t := SumTallies(order + [p], entries), SumTallies(order + [p], entries + [e]);
            t == if e.peer in order || e.peer == p then Plus(s, Delta(e.kind, e.value)) else s
  {
    hide Tally, Delta, Plus, SumTallies;
    SumTalliesAppend(order, p, entries);
    SumTalliesAppend(order, p, entries + [e]);
    TallyAppend(entries, e, p);
    PlusLaws(Tally(entries, p), Zero, Zero);
    if p == e.peer {
      PlusLaws(SumTallies(order, entries), Tally(entries, p), Delta(e.kind, e.value));
    } else {
      PlusLaws(SumTallies(order, entries), Delta(e.kind, e.value), Tally(entries, p));
    }
  }

  lemma SumTalliesAppend(order: seq<PeerId>, p: PeerId, entries: seq<Entry>)
    ensures SumTallies(order + [p], entries) == Plus(SumTallies(order, entries), Tally(entries, p))
  {
    assert (order + [p])[..|order|] == order;
  }

  lemma {:induction false} SumTalliesNone(order: seq<PeerId>)
    ensures SumTallies(order, []) == Zero
  {
    if order != [] {
      SumTalliesNone(order[..|order| - 1]);
    }
  }

  lemma {:induction false} SumTalliesAll(order: seq<PeerId>, entries: seq<Entry>)
    requires NoDuplicates(order) && forall e <- entries :: e.peer in order
    ensures SumTallies(order, entries) == SumEntries(entries)
  {
    if entries == [] {
      SumTalliesNone(order);
    } else {
      var front, last := entries[..|entries| - 1], entries[|entries| - 1];
      assert entries == front + [last];
      SumTalliesAll(order, front);
      SumTalliesGrows(order, front, last);
    }
  }

  lemma {:induction false} SumOfValues(metrics: map<PeerId, Metrics>, order: seq<PeerId>, entries: seq<Entry>)
    requires forall p <- order :: p in metrics && metrics[p] == Tally(entries, p)
    ensures SumMetrics(ValuesOf(metrics, order)) == SumTallies(order, entries)
  {
    if order != [] {
      hide Tally, Plus;
      SumOfValues(metrics, order[..|order| - 1], entries);
      var vs := ValuesOf(metrics, order[..|order| - 1]);
      assert (vs + [metrics[order[|order| - 1]]])[..|vs|] == vs;
    }
  }

  lemma {:induction false} ValuesPresent(table: map<EntryId, Entry>, order: seq<EntryId>, peers: set<PeerId>)
    requires forall id <- order :: id in table && table[id].peer in peers
    ensures forall e <- ValuesOf(table, order) :: e.peer in peers
  {
    if order != [] {
      ValuesPresent(table, order[..|order| - 1], peers);
    }
  }

  /** The totals over all peers' counters are the totals the ledger reports: nothing is lost or counted twice. */
  lemma TotalsAgree(actions: seq<Action>)
    ensures var s := Run(Fresh, actions);
            var sum, entries := SumMetrics(Values(s.metrics)), Values(s.ledger);
            && sum == SumEntries(entries)
            && sum.storageShared == TotalValue(entries, StorageShared)
            && sum.bandwidthShared == TotalValue(entries, BandwidthShared)
            && sum.uptime == TotalValue(entries, Uptime)
            && sum.chunksServed == EntryCount(entries, ChunkServed)
  {
    var s := Run(Fresh, actions);
    MetricsAreFold(actions);
    hide Run, FromEvents, ScoresCurrent, Tally;
    var entries := Values(s.ledger);
    assert forall p <- s.metrics.order :: MetricsOf(s.metrics, p) == Tally(entries, p);
    SumOfValues(s.metrics.table, s.metrics.order, entries);
    ValuesPresent(s.ledger.table, s.ledger.order, s.metrics.table.Keys);
    SumTalliesAll(s.metrics.order, entries);
    KindTotals(entries);
  }

  // ---------- The managers and the engine ----------

  class ContributionMetricsManager {
    var metrics: OrderedMap<PeerId, Metrics>

    constructor ()
      ensures metrics == NoEntries()
    {
      metrics := NoEntries();
    }

    /** The record is made on first use. */
    method GetMetrics(p: PeerId) returns (m: Metrics)
      modifies this
      ensures metrics == Touch(old(metrics), p) && m == MetricsOf(old(metrics), p)
    {
      if p !in metrics.table {
        metrics := Set(metrics, p, Zero);
      }
      m := metrics.table[p];
    }

    /** Events of other kinds change no counter and make no record. */
    method UpdateFromEvent(kind: Kind, p: PeerId, value: int)
      modifies this
      ensures Touch(metrics, p) == AddMetrics(old(metrics), kind, p, value)
    {
      if kind in {PeerConnected, PeerDisconnected, DataValidated, InvalidData, SybilDetected, ManipulationDetected} {
        AddingNothing(metrics, kind, p, value);
        return;
      }
      hide Plus, Delta;
      var m := GetMetrics(p);
      m := Increment(m, kind, value);
      metrics := Set(metrics, p, m);
    }

    /** One counter of the record goes up. */
    static method Increment(record: Metrics, kind: Kind, value: int) returns (m: Metrics)
      ensures m == Plus(record, Delta(kind, value))
    {
      m := record;
      match kind {
        case StorageShared => m := m.(storageShared := m.storageShared + value);
        case BandwidthShared => m := m.(bandwidthShared := m.bandwidthShared + value);
        case ChunkServed => m := m.(chunksServed := m.chunksServed + 1);
        case ChunkDownloaded => m := m.(chunksDownloaded := m.chunksDownloaded + 1);
        case PostReplicated => m := m.(postsReplicated := m.postsReplicated + 1);
        case MediaReplicated => m := m.(mediaReplicated := m.mediaReplicated + 1);
        case Uptime => m := m.(uptime := m.uptime + value);
        case UploadFinished => m := m.(successfulUploads := m.successfulUploads + 1);
        case DownloadFinished => m := m.(successfulDownloads := m.successfulDownloads + 1);
        case RequestReceived => m := m.(requestsReceived := m.requestsReceived + 1);
        case _ =>
      }
    }

    method ResetMetrics(p: PeerId)
      modifies this
      ensures metrics == Set(old(metrics), p, Zero)
    {
      metrics := Set(metrics, p, Zero);
    }

    method ClearAll()
      modifies this
      ensures metrics == NoEntries()
    {
      metrics := NoEntries();
    }
  }

  lemma SetSame<K, V>(m: OrderedMap<K, V>, k: K)
    requires k in m.table
    ensures Set(m, k, m.table[k]) == m
  {
    assert m.table[k := m.table[k]] == m.table;
  }

  lemma AddingNothing(metrics: OrderedMap<PeerId, Metrics>, kind: Kind, p: PeerId, value: int)
    requires Delta(kind, value) == Zero
    ensures AddMetrics(metrics, kind, p, value) == Touch(metrics, p)
  {
    PlusLaws(MetricsOf(metrics, p), Zero, Zero);
    hide Plus, Delta;
    SetSame(Touch(metrics, p), p);
    assert Touch(metrics, p).table[p] == MetricsOf(metrics, p);
  }

  class ContributionEvents {
    var events: seq<Event>

    constructor ()
      ensures events == []
    {
      events := [];
    }

    /** The listeners are told of `event` exactly when it is new. */
    method Emit(id: EventId, now: int) returns (event: Event, isNew: bool)
      modifies this
      ensures isNew <==> !HasEvent(old(events), id)
      ensures event.id == id && event in events
      ensures events == if isNew then old(events) + [Event(id, now)] else old(events)
      ensures isNew ==> event == Event(id, now)
    {
      for i := 0 to |events|
        invariant forall j | 0 <= j < i :: events[j].id != id
      {
        if events[i].id == id {
          return events[i], false;
        }
      }
      event := Event(id, now);
      events := events + [event];
      return event, true;
    }

    method ClearAll()
      modifies this
      ensures events == []
    {
      events := [];
    }
  }

  class ContributionLedger {
    var entries: OrderedMap<EntryId, Entry>

    constructor ()
      ensures entries == NoEntries()
    {
      entries := NoEntries();
    }

    method AppendEntry(e: Entry) returns (result: AppendResult)
      modifies this
      ensures (entries, result) == Append(old(entries), e)
    {
      var id := EntryIdOf(e);
      if id in entries.table {
        var existing := entries.table[id];
        if existing.(timestamp := 0) == e.(timestamp := 0) {
          return Duplicate(existing);
        }
        return Conflict(existing);
      }
      entries := Set(entries, id, e);
      return Inserted(e);
    }

    /** The loop deletes entries from the map it walks; every entry is still visited once. */
    method DeleteEntriesForPeer(p: PeerId) returns (count: nat)
      requires WellFormed(entries)
      modifies this
      ensures entries == WithoutPeer(old(entries), p)
      ensures count == |old(entries).order| - |entries.order|
    {
      hide Halfway, WithoutPeer, Delete;
      var ids := entries.order;
      ghost var table := entries.table;
      HalfwayStart(entries, p);
      count := 0;
      for i := 0 to |ids|
        invariant Halfway(entries, table, ids, i, p)
        invariant count == |ids| - |entries.order|
      {
        HalfwayAt(entries, table, ids, i, p);
        if entries.table[ids[i]].peer != p {
          HalfwayKeep(entries, table, ids, i, p);
        } else {
          HalfwayDelete(entries, table, ids, i, p);
          entries := Delete(entries, ids[i]);
          count := count + 1;
        }
      }
      HalfwayDone(entries, OrderedMap(table, ids), p);
    }

    method ClearAll()
      modifies this
      ensures entries == NoEntries()
    {
      entries := NoEntries();
    }
  }

  /** The first `i` ids have been visited. */
  ghost predicate Halfway(entries: OrderedMap<EntryId, Entry>, table: map<EntryId, Entry>, ids: seq<EntryId>, i: nat,
                          p: PeerId) {
    && i <= |ids| && NoDuplicates(ids) && (forall id :: id in ids <==> id in table)
    && entries.order == Others(table, ids[..i], p) + ids[i..]
    && entries.table == map id | id in table && !(id in ids[..i] && table[id].peer == p) :: table[id]
  }

  lemma HalfwayStart(ledger: OrderedMap<EntryId, Entry>, p: PeerId)
    requires WellFormed(ledger)
    ensures Halfway(ledger, ledger.table, ledger.order, 0, p)
  {
    var none: seq<EntryId> := [];
    assert ledger.order[..0] == none && ledger.order[0..] == ledger.order && none + ledger.order == ledger.order;
    assert Others(ledger.table, none, p) == none;
    assert ledger.table ==
           map id | id in ledger.table && !(id in none && ledger.table[id].peer == p) :: ledger.table[id];
    hide Others, WellFormed;
  }

  lemma HalfwayDone(entries: OrderedMap<EntryId, Entry>, ledger: OrderedMap<EntryId, Entry>, p: PeerId)
    requires Halfway(entries, ledger.table, ledger.order, |ledger.order|, p)
    ensures entries == WithoutPeer(ledger, p)
  {
    var ids := ledger.order;
    assert ids[..|ids|] == ids;
    assert Others(ledger.table, ids, p) + ids[|ids|..] == Others(ledger.table, ids, p);
  }

  lemma HalfwayAt(entries: OrderedMap<EntryId, Entry>, table: map<EntryId, Entry>, ids: seq<EntryId>, i: nat, p: PeerId)
    requires i < |ids| && Halfway(entries, table, ids, i, p)
    ensures ids[i] in entries.table && ids[i] in table && entries.table[ids[i]] == table[ids[i]]
    ensures ids[i] !in ids[..i] && ids[i] !in ids[i + 1..]
  {
    assert ids[i] in ids;
  }

  lemma HalfwayKeep(entries: OrderedMap<EntryId, Entry>, table: map<EntryId, Entry>, ids: seq<EntryId>, i: nat,
                    p: PeerId)
    requires i < |ids| && Halfway(entries, table, ids, i, p) && ids[i] in table && table[ids[i]].peer != p
    ensures Halfway(entries, table, ids, i + 1, p)
  {
    hide Others, NoDuplicates;
    var x, rest, kept := ids[i], ids[i + 1..], Others(table, ids[..i], p);
    assert ids[..i + 1] == ids[..i] + [x] && ids[i..] == [x] + rest;
    OthersAppend(table, ids[..i], p, x);
    assert kept + ([x] + rest) == (kept + [x]) + rest;
    assert forall id :: (id in ids[..i + 1] <==> id in ids[..i] || id == x);
    assert forall id | id in table ::
             !(id in ids[..i] && table[id].peer == p) <==> !(id in ids[..i + 1] && table[id].peer == p);
  }

  lemma HalfwayDelete(entries: OrderedMap<EntryId, Entry>, table: map<EntryId, Entry>, ids: seq<EntryId>, i: nat,
                      p: PeerId)
    requires i < |ids| && Halfway(entries, table, ids, i, p) && ids[i] in table && table[ids[i]].peer == p
    requires ids[i] !in ids[..i] && ids[i] !in ids[i + 1..]
    ensures Halfway(Delete(entries, ids[i]), table, ids, i + 1, p)
    ensures |Delete(entries, ids[i]).order| == |entries.order| - 1
  {
    hide Others, Deleted;
    var x, rest, kept := ids[i], ids[i + 1..], Others(table, ids[..i], p);
    assert ids[..i + 1] == ids[..i] + [x] && ids[i..] == [x] + rest;
    OthersAppend(table, ids[..i], p, x);
    OthersAre(table, ids[..i], p);
    DeletedMiddle(kept, x, rest);
  }

  lemma {:induction false} DeletedMiddle<I>(a: seq<I>, x: I, b: seq<I>)
    requires x !in a && x !in b
    ensures Deleted(a + ([x] + b), x) == a + b
  {
    var q := a + ([x] + b);
    if a == [] {
      assert q == [x] + b && q[1..] == b;
      DeletedAbsent(b, x);
      assert a + b == b;
    } else {
      assert q[1..] == a[1..] + ([x] + b) && q[0] == a[0];
      DeletedMiddle(a[1..], x, b);
      assert [a[0]] + (a[1..] + b) == a + b;
    }
  }

  class ContributionEngine {
    const metrics: ContributionMetricsManager
    const events: ContributionEvents
    const ledger: ContributionLedger
    var scores: map<PeerId, Score>

    ghost function Value(): State
      reads this, metrics, events, ledger
    {
      State(events.events, ledger.entries, metrics.metrics, scores)
    }

    ghost predicate Valid()
      reads this, metrics, events, ledger
    {
      Inv(Value())
    }

    constructor ()
      ensures Valid() && Value() == Fresh && fresh(metrics) && fresh(events) && fresh(ledger)
    {
      metrics := new ContributionMetricsManager();
      events := new ContributionEvents();
      ledger := new ContributionLedger();
      scores := map[];
      new;
      FreshInv();
    }

    method RecalculateScore(p: PeerId) returns (score: Score)
      modifies this, metrics
      ensures Value() == Recalculate(old(Value()), p)
      ensures score == ScoreOf(p, MetricsOf(old(metrics.metrics), p))
    {
      hide ScoreOf;
      var m := metrics.GetMetrics(p);
      score := ScoreOf(p, m);
      scores := scores[p := score];
    }

    /** The listener the engine registers for all events. */
    method ProcessEventNow(e: Event)
      modifies this, metrics, ledger
      ensures Value() == ProcessEvent(old(Value()), e)
    {
      hide ScoreOf, AddMetrics, DescriptionOf;
      var result := ledger.AppendEntry(EntryFor(e.id, e.timestamp));
      if !result.Inserted? {
        return;
      }
      ghost var before := metrics.metrics;
      metrics.UpdateFromEvent(e.id.kind, e.id.peer, e.id.value);
      TouchAgain(before, metrics.metrics, e.id.kind, e.id.peer, e.id.value);
      var score := RecalculateScore(e.id.peer);
    }

    method EmitEvent(id: EventId, now: int) returns (event: Event)
      requires Valid()
      modifies this, metrics, events, ledger
      ensures Valid() && Value() == Step(old(Value()), Emit(id, now))
      ensures event.id == id
    {
      hide Inv, ProcessEvent;
      StepKeeps(Value(), Emit(id, now));
      var isNew;
      event, isNew := events.Emit(id, now);
      if isNew {
        ProcessEventNow(event);
      }
    }

    /** The cached score, which is the score of the counters as they are. */
    method CurrentScore(p: PeerId) returns (score: Score)
      requires Valid()
      modifies this, metrics
      ensures Valid() && Value() == Step(old(Value()), GetScore(p))
      ensures score == ScoreOf(p, Tally(Values(ledger.entries), p))
    {
      StepKeeps(Value(), GetScore(p));
      ScoreIsTally(Value(), p);
      hide Inv, ScoreOf, Tally, Values;
      if p !in scores {
        var made := RecalculateScore(p);
      }
      return scores[p];
    }

    method ResetPeerData(p: PeerId)
      requires Valid()
      modifies this, metrics, ledger
      ensures Valid() && Value() == Step(old(Value()), ResetPeer(p))
    {
      StepKeeps(Value(), ResetPeer(p));
      LedgerFormed(Value());
      hide Inv;
      metrics.ResetMetrics(p);
      var count := ledger.DeleteEntriesForPeer(p);
      scores := scores - {p};
    }

    method ClearAllData()
      modifies this, metrics, events, ledger
      ensures Valid() && Value() == Fresh
    {
      metrics.ClearAll();
      events.ClearAll();
      ledger.ClearAll();
      scores := map[];
      FreshInv();
    }
  }

  lemma TouchAgain(before: OrderedMap<PeerId, Metrics>, after: OrderedMap<PeerId, Metrics>, kind: Kind, p: PeerId,
                   value: int)
    requires Touch(after, p) == AddMetrics(before, kind, p, value)
    ensures Touch(AddMetrics(before, kind, p, value), p) == Touch(after, p)
    ensures MetricsOf(after, p) == MetricsOf(AddMetrics(before, kind, p, value), p)
  {
    hide AddMetrics;
  }

  lemma ScoreIsTally(s: State, p: PeerId)
    requires Inv(s)
    ensures MetricsOf(s.metrics, p) == Tally(Values(s.ledger), p)
    ensures p in s.scores ==> s.scores[p] == ScoreOf(p, MetricsOf(s.metrics, p))
  {
    hide Tally, Values, ScoreOf;
  }

  lemma LedgerFormed(s: State)
    requires Inv(s)
    ensures WellFormed(s.ledger)
  {
  }
}
