/** The reward pools of src/economy/RewardPool.ts, with amounts and weights as exact reals. */
module Rewards {
  import opened Buckets
  import opened OrderedMaps
  import opened Prelude

  type PeerId = string

  datatype Category = Storage | Bandwidth | Streaming | Replication | Availability | Community

  datatype Config = Config(weight: real, dailyLimit: real, perPeerLimit: real, enabled: bool)

  datatype State = State(
    pools: OrderedMap<Category, Config>,
    daily: map<Category, real>,
    peers: OrderedMap<PeerId, map<Category, real>>)

  datatype Event =
    | Allocate(category: Category, amount: real, peer: Option<PeerId>)
    | SetEnabled(category: Category, enabled: bool)
    | ResetDaily
    | ResetPeers(peer: Option<PeerId>)
    | Normalize

  function Start(pools: OrderedMap<Category, Config>): State {
    State(pools, map c | c in pools.table :: 0.0, NoEntries())
  }

  // ---------- Operations ----------

  /** A missing peer and an empty name both stand for no peer. */
  function Named(p: Option<PeerId>): Option<PeerId> { if p == Some("") then None else p }

  function DailyOf(s: State, c: Category): real { if c in s.daily then s.daily[c] else 0.0 }

  function InnerOf(s: State, p: PeerId): map<Category, real> { if p in s.peers.table then s.peers.table[p] else map[] }

  function PeerOf(s: State, p: PeerId, c: Category): real {
    if c in InnerOf(s, p) then InnerOf(s, p)[c] else 0.0
  }

  predicate Accepts(s: State, c: Category, amount: real, peer: Option<PeerId>) {
    && c in s.pools.table && s.pools.table[c].enabled
    && DailyOf(s, c) + amount <= s.pools.table[c].dailyLimit
    && (Named(peer).Some? ==> PeerOf(s, Named(peer).value, c) + amount <= s.pools.table[c].perPeerLimit)
  }

  /** An allocation is accepted if and only if its pool is there and enabled and the amount stays within what is left
      of the day's limit and, for a named peer, of that peer's limit. It is then added to both, and nothing else
      changes. */
  lemma AllocateIff(s: State, c: Category, amount: real, peer: Option<PeerId>)
    ensures Accepts(s, c, amount, peer) <==>
            && c in s.pools.table && s.pools.table[c].enabled
            && amount <= s.pools.table[c].dailyLimit - (if c in s.daily then s.daily[c] else 0.0)
            && (peer.Some? && peer.value != "" ==>
                  amount <= s.pools.table[c].perPeerLimit
                            - (if peer.value in s.peers.table && c in s.peers.table[peer.value]
                               then s.peers.table[peer.value][c] else 0.0))
    ensures var t := Step(s, Allocate(c, amount, peer));
            && t.pools == s.pools && (!Accepts(s, c, amount, peer) ==> t == s)
            && (Accepts(s, c, amount, peer) ==>
                  t.daily == s.daily[c := (if c in s.daily then s.daily[c] else 0.0) + amount])
            && (forall p, d | p != "" && (Some(p) != peer || d != c) :: PeerOf(t, p, d) == PeerOf(s, p, d))
  {
    hide Set;
    if Named(peer).Some? {
      SetOthers(s.peers, peer.value, InnerOf(s, peer.value)[c := PeerOf(s, peer.value, c) + amount]);
    }
  }

  /** Switching a pool, and the two resets, by what they leave. */
  lemma SwitchesAndResets(s: State, c: Category, enabled: bool, peer: Option<PeerId>)
    ensures var t := Step(s, SetEnabled(c, enabled));
            && t.daily == s.daily && t.peers == s.peers && t.pools.order == s.pools.order
            && t.pools.table == if c in s.pools.table then s.pools.table[c := s.pools.table[c].(enabled := enabled)]
                                else s.pools.table
    ensures var t := Step(s, ResetDaily);
            && t.pools == s.pools && t.peers == s.peers
            && (c in s.pools.table ==> c in t.daily && t.daily[c] == 0.0)
            && (c !in s.pools.table ==> DailyOf(t, c) == DailyOf(s, c))
    ensures var t := Step(s, ResetPeers(peer));
            && t.pools == s.pools && t.daily == s.daily
            && t.peers.table == if peer.None? || peer.value == "" then map[] else s.peers.table - {peer.value}
  {
    hide Deleted;
  }

  lemma SetOthers(m: OrderedMap<PeerId, map<Category, real>>, p: PeerId, v: map<Category, real>)
    ensures Set(m, p, v).table == m.table[p := v]
  {
  }

  function WithPeer(s: State, c: Category, amount: real, peer: Option<PeerId>)
    : OrderedMap<PeerId, map<Category, real>>
  {
    match Named(peer)
    case None => s.peers
    case Some(p) => Set(s.peers, p, InnerOf(s, p)[c := PeerOf(s, p, c) + amount])
  }

  function TotalWeight(pools: map<Category, Config>, order: seq<Category>): real {
    if order == [] then 0.0
    else
      var last := order[|order| - 1];
      TotalWeight(pools, order[..|order| - 1]) + (if last in pools then pools[last].weight else 0.0)
  }

  function Normalized(pools: OrderedMap<Category, Config>): OrderedMap<Category, Config> {
    var total := TotalWeight(pools.table, pools.order);
    if total == 0.0 then pools
    else pools.(table := map c | c in pools.table :: pools.table[c].(weight := pools.table[c].weight / total))
  }

  function Step(s: State, e: Event): State {
    match e
    case Allocate(c, amount, peer) =>
      if Accepts(s, c, amount, peer)
      then s.(daily := s.daily[c := DailyOf(s, c) + amount], peers := WithPeer(s, c, amount, peer))
      else s
    case SetEnabled(c, enabled) =>
      if c in s.pools.table then s.(pools := Set(s.pools, c, s.pools.table[c].(enabled := enabled))) else s
    case ResetDaily =>
      s.(daily := map c | c in s.daily.Keys + s.pools.table.Keys ::
                    if c in s.pools.table then 0.0 else s.daily[c])
    case ResetPeers(peer) =>
      s.(peers := match Named(peer) case None => NoEntries() case Some(p) => Delete(s.peers, p))
    case Normalize => s.(pools := Normalized(s.pools))
  }

  function Run(s: State, events: seq<Event>): State {
    if events == [] then s else Step(Run(s, events[..|events| - 1]), events[|events| - 1])
  }

  // ---------- Allocations are sums of accepted amounts ----------

  /** Amounts accepted in a category since the last daily reset. */
  function AcceptedDaily(s: State, events: seq<Event>, c: Category): real {
    if events == [] then 0.0
    else
      var front, e := events[..|events| - 1], events[|events| - 1];
      if e.ResetDaily? then 0.0
      else
        AcceptedDaily(s, front, c) +
        (if e.Allocate? && e.category == c && Accepts(Run(s, front), c, e.amount, e.peer) then e.amount else 0.0)
  }

  /** Amounts accepted for one peer in a category since that peer was last reset. */
  function AcceptedFor(s: State, events: seq<Event>, p: PeerId, c: Category): real {
    if events == [] then 0.0
    else
      var front, e := events[..|events| - 1], events[|events| - 1];
      if e.ResetPeers? && (Named(e.peer) == None || Named(e.peer) == Some(p)) then 0.0
      else
        AcceptedFor(s, front, p, c) +
        (if e.Allocate? && e.category == c && Named(e.peer) == Some(p) && Accepts(Run(s, front), c, e.amount, e.peer)
         then e.amount else 0.0)
  }

  /** Over every run, resets and refusals included: a daily allocation is the sum of the amounts accepted since
      the daily reset, and a peer's allocation the sum of those accepted in its name since its own reset. */
  lemma {:induction false} AllocationsAreSums(pools: OrderedMap<Category, Config>, events: seq<Event>, p: PeerId,
                                              c: Category)
    requires p != "" && c in pools.table
    ensures var s := Run(Start(pools), events);
            && c in s.pools.table
            && DailyOf(s, c) == AcceptedDaily(Start(pools), events, c)
            && PeerOf(s, p, c) == AcceptedFor(Start(pools), events, p, c)
  {
    if events != [] {
      AllocationsAreSums(pools, events[..|events| - 1], p, c);
      StepAdds(Run(Start(pools), events[..|events| - 1]), events[|events| - 1], p, c);
      hide Step;
    }
  }

  lemma StepAdds(s: State, e: Event, p: PeerId, c: Category)
    requires p != "" && c in s.pools.table
    ensures var t, accepted := Step(s, e), e.Allocate? && e.category == c && Accepts(s, c, e.amount, e.peer);
            && c in t.pools.table
            && DailyOf(t, c) == (if e.ResetDaily? then 0.0 else DailyOf(s, c) + if accepted then e.amount else 0.0)
            && PeerOf(t, p, c) ==
                 (if e.ResetPeers? && (Named(e.peer) == None || Named(e.peer) == Some(p)) then 0.0
                  else PeerOf(s, p, c) + if accepted && Named(e.peer) == Some(p) then e.amount else 0.0)
  {
    StepDaily(s, e, c);
    StepPeer(s, e, p, c);
    hide Step, Accepts, DailyOf, PeerOf;
  }

  lemma StepDaily(s: State, e: Event, c: Category)
    requires c in s.pools.table
    ensures var t, accepted := Step(s, e), e.Allocate? && e.category == c && Accepts(s, c, e.amount, e.peer);
            && c in t.pools.table
            && DailyOf(t, c) == (if e.ResetDaily? then 0.0 else DailyOf(s, c) + if accepted then e.amount else 0.0)
  {
    hide TotalWeight, Deleted, PeerOf, WithPeer;
  }

  lemma StepPeer(s: State, e: Event, p: PeerId, c: Category)
    requires p != ""
    ensures var t, accepted := Step(s, e), e.Allocate? && e.category == c && Accepts(s, c, e.amount, e.peer);
            PeerOf(t, p, c) ==
              (if e.ResetPeers? && (Named(e.peer) == None || Named(e.peer) == Some(p)) then 0.0
               else PeerOf(s, p, c) + if accepted && Named(e.peer) == Some(p) then e.amount else 0.0)
  {
    hide TotalWeight, Deleted, Normalized, Accepts;
  }

  // ---------- Limits ----------

  function Max(a: real, b: real): real { if a >= b then a else b }

  ghost predicate LimitAt(s: State, c: Category) {
    c in s.pools.table ==>
      && DailyOf(s, c) <= Max(0.0, s.pools.table[c].dailyLimit)
      && forall p :: PeerOf(s, p, c) <= Max(0.0, s.pools.table[c].perPeerLimit)
  }

  /** No allocation is above its limit, or above zero where the limit is negative. */
  ghost predicate WithinLimits(s: State) { forall c :: LimitAt(s, c) }

  lemma StepLimits(s: State, e: Event)
    requires WithinLimits(s)
    ensures WithinLimits(Step(s, e))
  {
    forall c ensures LimitAt(Step(s, e), c) {
      assert LimitAt(s, c);
      StepLimitAt(s, e, c);
    }
  }

  lemma StepLimitAt(s: State, e: Event, c: Category)
    requires LimitAt(s, c)
    ensures LimitAt(Step(s, e), c)
  {
    hide TotalWeight, Deleted, Accepts;
    var t := Step(s, e);
    if c in t.pools.table {
      SameLimits(s, e, c);
      forall p ensures PeerOf(t, p, c) <= Max(0.0, t.pools.table[c].perPeerLimit) {
        assert PeerOf(s, p, c) <= Max(0.0, s.pools.table[c].perPeerLimit);
        if e.Allocate? {
          AllocateLimits(s, e, c, p);
        }
      }
      if e.Allocate? {
        AllocateLimits(s, e, c, "");
      }
    }
  }

  lemma SameLimits(s: State, e: Event, c: Category)
    requires c in Step(s, e).pools.table
    ensures c in s.pools.table
    ensures var x, y := s.pools.table[c], Step(s, e).pools.table[c];
            x.dailyLimit == y.dailyLimit && x.perPeerLimit == y.perPeerLimit
  {
    hide TotalWeight, Accepts, Deleted;
  }

  lemma AllocateLimits(s: State, e: Event, c: Category, p: PeerId)
    requires e.Allocate? && c in s.pools.table
    requires DailyOf(s, c) <= Max(0.0, s.pools.table[c].dailyLimit)
             && PeerOf(s, p, c) <= Max(0.0, s.pools.table[c].perPeerLimit)
    ensures var t := Step(s, e);
            DailyOf(t, c) <= Max(0.0, s.pools.table[c].dailyLimit)
              && PeerOf(t, p, c) <= Max(0.0, s.pools.table[c].perPeerLimit)
  {
  }

  /** Whatever the amounts, even negative ones, and whatever the resets. */
  lemma {:induction false} RunLimits(pools: OrderedMap<Category, Config>, events: seq<Event>)
    ensures WithinLimits(Run(Start(pools), events))
  {
    hide Step;
    if events == [] {
    } else {
      hide WithinLimits;
      RunLimits(pools, events[..|events| - 1]);
      StepLimits(Run(Start(pools), events[..|events| - 1]), events[|events| - 1]);
    }
  }

  // ---------- Conservation ----------

  /** One category's total over the peers with a record. */
  function PeerTotal(peers: map<PeerId, map<Category, real>>, order: seq<PeerId>, c: Category): real {
    if order == [] then 0.0
    else
      var last := order[|order| - 1];
      PeerTotal(peers, order[..|order| - 1], c) + (if last in peers && c in peers[last] then peers[last][c] else 0.0)
  }

  /** Amounts accepted without a peer's name. */
  function Unnamed(s: State, events: seq<Event>, c: Category): real {
    if events == [] then 0.0
    else
      var front, e := events[..|events| - 1], events[|events| - 1];
      Unnamed(s, front, c) +
      (if e.Allocate? && e.category == c && Named(e.peer) == None && Accepts(Run(s, front), c, e.amount, e.peer)
       then e.amount else 0.0)
  }

  predicate IsReset(e: Event) { e.ResetDaily? || e.ResetPeers? }

  lemma {:induction false} PeerTotalSame(a: map<PeerId, map<Category, real>>, b: map<PeerId, map<Category, real>>,
                                         order: seq<PeerId>, c: Category)
    requires forall p <- order :: p in a && p in b && a[p] == b[p]
    ensures PeerTotal(a, order, c) == PeerTotal(b, order, c)
  {
    if order != [] {
      PeerTotalSame(a, b, order[..|order| - 1], c);
    }
  }

  lemma PeerTotalAppend(peers: map<PeerId, map<Category, real>>, order: seq<PeerId>, p: PeerId, c: Category)
    ensures PeerTotal(peers, order + [p], c)
         == PeerTotal(peers, order, c) + (if p in peers && c in peers[p] then peers[p][c] else 0.0)
  {
    assert (order + [p])[..|order|] == order;
  }

  function At(m: map<Category, real>, c: Category): real { if c in m then m[c] else 0.0 }

  lemma {:induction false} PeerTotalUpdate(peers: map<PeerId, map<Category, real>>, order: seq<PeerId>, p: PeerId,
                                           m: map<Category, real>, c: Category)
    requires NoDuplicates(order) && p in order && forall q <- order :: q in peers
    ensures PeerTotal(peers[p := m], order, c) == PeerTotal(peers, order, c) + At(m, c) - At(peers[p], c)
  {
    var front, last := order[..|order| - 1], order[|order| - 1];
    assert order == front + [last];
    PeerTotalAppend(peers, front, last, c);
    PeerTotalAppend(peers[p := m], front, last, c);
    if last == p {
      PeerTotalSame(peers, peers[p := m], front, c);
    } else {
      PeerTotalUpdate(peers, front, p, m, c);
    }
  }

  lemma PeerTotalSet(peers: OrderedMap<PeerId, map<Category, real>>, p: PeerId, m: map<Category, real>, c: Category)
    requires WellFormed(peers)
    ensures PeerTotal(Set(peers, p, m).table, Set(peers, p, m).order, c)
         == PeerTotal(peers.table, peers.order, c) + At(m, c)
            - (if p in peers.table then At(peers.table[p], c) else 0.0)
  {
    if p in peers.table {
      PeerTotalUpdate(peers.table, peers.order, p, m, c);
    } else {
      PeerTotalAppend(peers.table[p := m], peers.order, p, c);
      PeerTotalSame(peers.table, peers.table[p := m], peers.order, c);
    }
  }

  lemma AllocateConserves(s: State, e: Event, c: Category)
    requires WellFormed(s.peers) && c in s.pools.table && !IsReset(e)
    ensures var t := Step(s, e);
            && WellFormed(t.peers) && c in t.pools.table
            && DailyOf(t, c) - PeerTotal(t.peers.table, t.peers.order, c)
            == DailyOf(s, c) - PeerTotal(s.peers.table, s.peers.order, c)
             + (if e.Allocate? && e.category == c && Named(e.peer) == None && Accepts(s, c, e.amount, e.peer)
                then e.amount else 0.0)
  {
    StepAdds(s, e, "peer", c);
    StepPeerTotal(s, e, c);
    hide Step, PeerTotal, Accepts, DailyOf;
  }

  lemma StepPeerTotal(s: State, e: Event, c: Category)
    requires WellFormed(s.peers) && !IsReset(e)
    ensures var t := Step(s, e);
            && WellFormed(t.peers)
            && PeerTotal(t.peers.table, t.peers.order, c)
            == PeerTotal(s.peers.table, s.peers.order, c)
             + (if e.Allocate? && e.category == c && Named(e.peer).Some? && Accepts(s, c, e.amount, e.peer)
                then e.amount else 0.0)
  {
    hide TotalWeight, PeerTotal, Set, Accepts, WellFormed;
    if e.Allocate? && Named(e.peer).Some? {
      var p := Named(e.peer).value;
      var m := InnerOf(s, p)[e.category := PeerOf(s, p, e.category) + e.amount];
      SetKeeps(s.peers, p, m);
      PeerTotalSet(s.peers, p, m, c);
      assert At(m, c) == PeerOf(s, p, c) + if e.category == c then e.amount else 0.0;
    }
  }

  /** Without resets, a category's daily allocation is its total over all peers plus what was accepted without a
      peer's name: nothing is created, lost or counted for two peers. */
  lemma {:induction false} Conservation(pools: OrderedMap<Category, Config>, events: seq<Event>, c: Category)
    requires c in pools.table && forall e <- events :: !IsReset(e)
    ensures var s := Run(Start(pools), events);
            && WellFormed(s.peers) && c in s.pools.table
            && DailyOf(s, c) == PeerTotal(s.peers.table, s.peers.order, c) + Unnamed(Start(pools), events, c)
  {
    if events != [] {
      hide Step, Accepts;
      Conservation(pools, events[..|events| - 1], c);
      AllocateConserves(Run(Start(pools), events[..|events| - 1]), events[|events| - 1], c);
    }
  }

  lemma {:induction false} UnnamedPositive(s: State, events: seq<Event>, c: Category)
    requires forall e <- events :: e.Allocate? ==> e.amount >= 0.0
    ensures Unnamed(s, events, c) >= 0.0
  {
    if events != [] {
      hide Step, Accepts;
      UnnamedPositive(s, events[..|events| - 1], c);
    }
  }

  /** With non-negative amounts, the peers together never hold more than the day's allocation. */
  lemma PeersWithinDaily(pools: OrderedMap<Category, Config>, events: seq<Event>, c: Category)
    requires c in pools.table && (forall e <- events :: !IsReset(e))
    requires forall e <- events :: e.Allocate? ==> e.amount >= 0.0
    ensures var s := Run(Start(pools), events);
            && PeerTotal(s.peers.table, s.peers.order, c) <= DailyOf(s, c)
            && c in s.pools.table && DailyOf(s, c) <= Max(0.0, s.pools.table[c].dailyLimit)
  {
    hide Run, PeerTotal, Unnamed;
    Conservation(pools, events, c);
    UnnamedPositive(Start(pools), events, c);
    RunLimits(pools, events);
    assert LimitAt(Run(Start(pools), events), c);
  }

  // ---------- The peers and the day, resets included ----------

  /** The amount the event adds to the category. */
  function Amount(s: State, e: Event, c: Category): real {
    if e.Allocate? && e.category == c && Accepts(s, c, e.amount, e.peer) then e.amount else 0.0
  }

  predicate Resets(e: Event, p: PeerId) { e.ResetPeers? && (Named(e.peer) == None || Named(e.peer) == Some(p)) }

  /** Amounts accepted in some peer's name since the last daily reset. */
  function NamedSince(s: State, events: seq<Event>, c: Category): real {
    if events == [] then 0.0
    else
      var front, e := events[..|events| - 1], events[|events| - 1];
      if e.ResetDaily? then 0.0
      else
        NamedSince(s, front, c) + (if e.Allocate? && Named(e.peer).Some? then Amount(Run(s, front), e, c) else 0.0)
  }

  /** Amounts accepted without a name since the last daily reset. */
  function UnnamedSince(s: State, events: seq<Event>, c: Category): real {
    if events == [] then 0.0
    else
      var front, e := events[..|events| - 1], events[|events| - 1];
      if e.ResetDaily? then 0.0
      else
        UnnamedSince(s, front, c) + (if e.Allocate? && Named(e.peer).None? then Amount(Run(s, front), e, c) else 0.0)
  }

  /** What one peer holds from after the last daily reset. */
  function HeldSince(s: State, events: seq<Event>, p: PeerId, c: Category): real {
    if events == [] then 0.0
    else
      var front, e := events[..|events| - 1], events[|events| - 1];
      if e.ResetDaily? || Resets(e, p) then 0.0
      else
        HeldSince(s, front, p, c)
        + (if e.Allocate? && Named(e.peer) == Some(p) then Amount(Run(s, front), e, c) else 0.0)
  }

  /** What one peer still holds from before the last daily reset. */
  function HeldBefore(s: State, events: seq<Event>, p: PeerId, c: Category): real {
    if events == [] then 0.0
    else
      var front, e := events[..|events| - 1], events[|events| - 1];
      if e.ResetDaily? then PeerOf(Run(s, front), p, c)
      else if Resets(e, p) then 0.0
      else HeldBefore(s, front, p, c)
  }

  function TotalOf(s: State, c: Category): real { PeerTotal(s.peers.table, s.peers.order, c) }

  /** What all peers together still hold from before the last daily reset. */
  function Carried(s: State, events: seq<Event>, c: Category): real {
    if events == [] then 0.0
    else
      var front, e := events[..|events| - 1], events[|events| - 1];
      if e.ResetDaily? then TotalOf(Run(s, front), c)
      else if e.ResetPeers? then
        (match Named(e.peer) case None => 0.0 case Some(p) => Carried(s, front, c) - HeldBefore(s, front, p, c))
      else Carried(s, front, c)
  }

  /** What was accepted in a peer's name since the last daily reset, and taken from that peer by a reset since. */
  function Forgotten(s: State, events: seq<Event>, c: Category): real {
    if events == [] then 0.0
    else
      var front, e := events[..|events| - 1], events[|events| - 1];
      if e.ResetDaily? then 0.0
      else if e.ResetPeers? then
        (match Named(e.peer)
         case None => NamedSince(s, front, c)
         case Some(p) => Forgotten(s, front, c) + HeldSince(s, front, p, c))
      else Forgotten(s, front, c)
  }

  lemma {:induction false} DaySplits(pools: OrderedMap<Category, Config>, events: seq<Event>, c: Category)
    requires c in pools.table
    ensures var s := Start(pools);
            && c in Run(s, events).pools.table
            && DailyOf(Run(s, events), c) == NamedSince(s, events, c) + UnnamedSince(s, events, c)
  {
    if events != [] {
      DaySplits(pools, events[..|events| - 1], c);
      StepDaily(Run(Start(pools), events[..|events| - 1]), events[|events| - 1], c);
      hide Step, Accepts, DailyOf;
    }
  }

  lemma {:induction false} PeerSplits(pools: OrderedMap<Category, Config>, events: seq<Event>, p: PeerId, c: Category)
    requires p != ""
    ensures var s := Start(pools);
            PeerOf(Run(s, events), p, c) == HeldBefore(s, events, p, c) + HeldSince(s, events, p, c)
  {
    if events != [] {
      PeerSplits(pools, events[..|events| - 1], p, c);
      StepPeer(Run(Start(pools), events[..|events| - 1]), events[|events| - 1], p, c);
      hide Step, Accepts, PeerOf;
    }
  }

  lemma {:induction false} PeerTotalWithout(peers: map<PeerId, map<Category, real>>, order: seq<PeerId>, p: PeerId,
                                            c: Category)
    requires NoDuplicates(order)
    ensures PeerTotal(peers - {p}, Deleted(order, p), c)
         == PeerTotal(peers, order, c) - (if p in order && p in peers then At(peers[p], c) else 0.0)
  {
    if order != [] {
      var front, last := order[..|order| - 1], order[|order| - 1];
      PeerTotalWithout(peers, front, p, c);
      assert order == front + [last] && last !in front;
      DeletedAppend(front, last, p);
      hide Deleted;
      if last != p {
        PeerTotalAppend(peers - {p}, Deleted(front, p), last, c);
      } else {
        assert Deleted(order, p) == Deleted(front, p);
      }
    }
  }

  /** What a step does to the total over the peers. */
  lemma StepTotal(s: State, e: Event, c: Category)
    requires WellFormed(s.peers)
    ensures var t := Step(s, e);
            && WellFormed(t.peers)
            && TotalOf(t, c) ==
                 if e.ResetPeers? then
                   (match Named(e.peer) case None => 0.0 case Some(p) => TotalOf(s, c) - PeerOf(s, p, c))
                 else if e.Allocate? && Named(e.peer).Some? then TotalOf(s, c) + Amount(s, e, c)
                 else TotalOf(s, c)
  {
    if e.ResetPeers? {
      match Named(e.peer)
      case None =>
      case Some(p) =>
        DeleteKeeps(s.peers, p);
        PeerTotalWithout(s.peers.table, s.peers.order, p, c);
        hide Deleted, PeerTotal, NoDuplicates;
    } else if !e.ResetDaily? {
      StepPeerTotal(s, e, c);
      hide Step, PeerTotal, Accepts;
    }
  }

  lemma {:induction false} TotalSplits(pools: OrderedMap<Category, Config>, events: seq<Event>, c: Category)
    ensures var s := Start(pools);
            && WellFormed(Run(s, events).peers)
            && TotalOf(Run(s, events), c) == Carried(s, events, c) + NamedSince(s, events, c) - Forgotten(s, events, c)
  {
    if events != [] {
      hide Step, TotalOf, Amount, PeerOf, HeldBefore, HeldSince, WellFormed;
      var front, e := events[..|events| - 1], events[|events| - 1];
      TotalSplits(pools, front, c);
      StepTotal(Run(Start(pools), front), e, c);
      if e.ResetPeers? && Named(e.peer).Some? {
        PeerSplits(pools, front, Named(e.peer).value, c);
      }
    }
  }

  /** Over every run, resets and refusals included: the peers together hold no more than the day's allocation if and
      only if what they still hold from before the last daily reset is at most what was accepted since without a
      name, or in the name of a peer that has been reset since. */
  lemma WithinDailyIff(pools: OrderedMap<Category, Config>, events: seq<Event>, c: Category)
    requires c in pools.table
    ensures var s := Start(pools);
            TotalOf(Run(s, events), c) <= DailyOf(Run(s, events), c) <==>
            Carried(s, events, c) <= UnnamedSince(s, events, c) + Forgotten(s, events, c)
  {
    DaySplits(pools, events, c);
    TotalSplits(pools, events, c);
    hide Run, TotalOf, DailyOf, Carried, NamedSince, UnnamedSince, Forgotten;
  }

  /** So right after a daily reset they hold more than the day's allocation exactly when they hold anything. */
  lemma DailyResetUnbalances(pools: OrderedMap<Category, Config>, events: seq<Event>, c: Category)
    requires c in pools.table
    ensures var s, t := Run(Start(pools), events), Run(Start(pools), events + [ResetDaily]);
            TotalOf(t, c) <= DailyOf(t, c) <==> TotalOf(s, c) <= 0.0
  {
    WithinDailyIff(pools, events + [ResetDaily], c);
    assert (events + [ResetDaily])[..|events|] == events;
    hide Step, TotalOf, DailyOf;
  }

  // ---------- Weights ----------

  lemma {:induction false} ScaledWeights(a: map<Category, Config>, b: map<Category, Config>, order: seq<Category>,
                                         total: real)
    requires total != 0.0 && forall c <- order :: c in a && c in b && b[c].weight == a[c].weight / total
    ensures TotalWeight(b, order) == TotalWeight(a, order) / total
  {
    if order != [] {
      ScaledWeights(a, b, order[..|order| - 1], total);
    }
  }

  /** Normalising makes the weights sum to one, exactly when they do not sum to zero, and keeps their ratios. */
  lemma NormalizeMeans(pools: OrderedMap<Category, Config>)
    requires WellFormed(pools)
    ensures var after := Normalized(pools);
            && (TotalWeight(after.table, after.order) == 1.0 <==> TotalWeight(pools.table, pools.order) != 0.0)
            && after.order == pools.order && after.table.Keys == pools.table.Keys
            && forall c, d | c in pools.table && d in pools.table :: SameRatio(pools, after, c, d)
  {
    var total := TotalWeight(pools.table, pools.order);
    if total != 0.0 {
      ScaledWeights(pools.table, Normalized(pools).table, pools.order, total);
      OverItself(total);
      hide TotalWeight, SameRatio;
      forall c, d | c in pools.table && d in pools.table ensures SameRatio(pools, Normalized(pools), c, d) {
        NormalizedRatio(pools, c, d);
      }
    }
  }

  predicate SameRatio(before: OrderedMap<Category, Config>, after: OrderedMap<Category, Config>, c: Category,
                      d: Category)
    requires c in before.table && d in before.table && c in after.table && d in after.table
  {
    after.table[c].weight * before.table[d].weight == after.table[d].weight * before.table[c].weight
  }

  lemma NormalizedRatio(pools: OrderedMap<Category, Config>, c: Category, d: Category)
    requires c in pools.table && d in pools.table
    ensures SameRatio(pools, Normalized(pools), c, d)
  {
    hide TotalWeight;
    var total := TotalWeight(pools.table, pools.order);
    if total != 0.0 {
      Swap(pools.table[c].weight, pools.table[d].weight, total);
    }
  }

  lemma OverItself(t: real)
    requires t != 0.0
    ensures t / t == 1.0
  {
    var x := t / t;
    assert x * t == t;
    assert (x - 1.0) * t == 0.0;
  }

  lemma Swap(a: real, b: real, t: real)
    requires t != 0.0
    ensures a / t * b == b / t * a
  {
    var x := a / t;
    assert x * t == a && b / t * t == b;
    assert b / t * a == b / t * (x * t) == (b / t * t) * x;
  }

  function RewardAmount(pools: OrderedMap<Category, Config>, total: real, c: Category): real {
    if c in pools.table && pools.table[c].enabled then total * pools.table[c].weight else 0.0
  }

  function Distributed(pools: OrderedMap<Category, Config>, total: real, order: seq<Category>): real {
    if order == [] then 0.0
    else Distributed(pools, total, order[..|order| - 1]) + RewardAmount(pools, total, order[|order| - 1])
  }

  lemma {:induction false} DistributedAll(pools: OrderedMap<Category, Config>, total: real, order: seq<Category>)
    requires forall c <- order :: c in pools.table && pools.table[c].enabled
    ensures Distributed(pools, total, order) == total * TotalWeight(pools.table, order)
  {
    if order != [] {
      DistributedAll(pools, total, order[..|order| - 1]);
    }
  }

  /** With every pool enabled, the rewards of all categories add up to the whole pool once the weights are
      normalised. */
  lemma RewardsExhaust(pools: OrderedMap<Category, Config>, total: real)
    requires WellFormed(pools) && TotalWeight(pools.table, pools.order) != 0.0
    requires forall c | c in pools.table :: pools.table[c].enabled
    ensures Distributed(Normalized(pools), total, pools.order) == total
  {
    NormalizeMeans(pools);
    DistributedAll(Normalized(pools), total, pools.order);
  }

  // ---------- The pool ----------

  /** The allocations with those of the listed categories at zero. */
  ghost function Zeroed(daily: map<Category, real>, order: seq<Category>): map<Category, real> {
    map c | c in daily.Keys || c in order :: if c in order then 0.0 else daily[c]
  }

  lemma ZeroMore(daily: map<Category, real>, order: seq<Category>, c: Category)
    ensures Zeroed(daily, order + [c]) == Zeroed(daily, order)[c := 0.0]
  {
  }

  lemma ZeroedAll(daily: map<Category, real>, pools: OrderedMap<Category, Config>)
    requires WellFormed(pools)
    ensures Zeroed(daily, pools.order)
         == map c | c in daily.Keys + pools.table.Keys :: if c in pools.table then 0.0 else daily[c]
  {
  }

  class RewardPool {
    var pools: OrderedMap<Category, Config>
    var dailyAllocations: map<Category, real>
    var peerAllocations: OrderedMap<PeerId, map<Category, real>>

    ghost function Value(): State
      reads this
    {
      State(pools, dailyAllocations, peerAllocations)
    }

    constructor (configs: OrderedMap<Category, Config>)
      requires WellFormed(configs)
      ensures Value() == Start(configs)
    {
      pools, peerAllocations := configs, NoEntries();
      dailyAllocations := map[];
      new;
      for i := 0 to |configs.order|
        invariant pools == configs && peerAllocations == NoEntries()
        invariant dailyAllocations == map c | c in configs.order[..i] :: 0.0
      {
        dailyAllocations := dailyAllocations[configs.order[i] := 0.0];
      }
      assert configs.order[..|configs.order|] == configs.order;
    }

    method AllocateReward(c: Category, amount: real, peer: Option<PeerId>) returns (accepted: bool)
      modifies this
      ensures Value() == Step(old(Value()), Allocate(c, amount, peer))
      ensures accepted <==> Accepts(old(Value()), c, amount, peer)
    {
      hide Set;
      if c !in pools.table || !pools.table[c].enabled {
        return false;
      }
      var current := if c in dailyAllocations then dailyAllocations[c] else 0.0;
      if current + amount > pools.table[c].dailyLimit {
        return false;
      }
      if peer.Some? && peer.value != "" {
        var p := peer.value;
        var inner := if p in peerAllocations.table then peerAllocations.table[p] else map[];
        var currentForPeer := if c in inner then inner[c] else 0.0;
        if currentForPeer + amount > pools.table[c].perPeerLimit {
          return false;
        }
        peerAllocations := Set(peerAllocations, p, inner[c := currentForPeer + amount]);
      }
      dailyAllocations := dailyAllocations[c := current + amount];
      return true;
    }

    method SetPoolEnabled(c: Category, enabled: bool)
      modifies this
      ensures Value() == Step(old(Value()), SetEnabled(c, enabled))
    {
      if c in pools.table {
        pools := Set(pools, c, pools.table[c].(enabled := enabled));
      }
    }

    /** Every configured category starts from zero again. */
    method ResetDailyAllocations()
      requires WellFormed(pools)
      modifies this
      ensures Value() == Step(old(Value()), ResetDaily)
    {
      ghost var before := dailyAllocations;
      assert Zeroed(before, pools.order[..0]) == before;
      hide Zeroed;
      for i := 0 to |pools.order|
        invariant pools == old(pools) && peerAllocations == old(peerAllocations)
        invariant dailyAllocations == Zeroed(before, pools.order[..i])
      {
        ZeroMore(before, pools.order[..i], pools.order[i]);
        assert pools.order[..i + 1] == pools.order[..i] + [pools.order[i]];
        dailyAllocations := dailyAllocations[pools.order[i] := 0.0];
      }
      assert pools.order[..|pools.order|] == pools.order;
      ZeroedAll(before, pools);
    }

    method ResetPeerAllocations(peer: Option<PeerId>)
      modifies this
      ensures Value() == Step(old(Value()), ResetPeers(peer))
    {
      if peer.Some? && peer.value != "" {
        peerAllocations := Delete(peerAllocations, peer.value);
      } else {
        peerAllocations := NoEntries();
      }
    }

    method SumWeights() returns (total: real)
      requires WellFormed(pools)
      ensures total == TotalWeight(pools.table, pools.order)
    {
      total := 0.0;
      for i := 0 to |pools.order|
        invariant total == TotalWeight(pools.table, pools.order[..i])
      {
        assert pools.order[..i + 1][..i] == pools.order[..i];
        assert pools.order[i] in pools.order;
        total := total + pools.table[pools.order[i]].weight;
      }
      assert pools.order[..|pools.order|] == pools.order;
    }

    /** The total is taken before the first weight changes. */
    method NormalizeWeights()
      requires WellFormed(pools)
      modifies this
      ensures WellFormed(pools) && Value() == Step(old(Value()), Normalize)
    {
      hide TotalWeight, Scaled;
      var total := SumWeights();
      if total == 0.0 {
        return;
      }
      var before := pools;
      HalfScaledStart(before, total);
      for i := 0 to |before.order|
        invariant dailyAllocations == old(dailyAllocations) && peerAllocations == old(peerAllocations)
        invariant HalfScaled(pools, before, total, i)
      {
        HalfScaledNext(pools, before, total, i);
        var c := before.order[i];
        pools := Set(pools, c, pools.table[c].(weight := pools.table[c].weight / total));
      }
      HalfScaledDone(pools, before, total);
    }
  }

  function Scaled(config: Config, total: real, visited: bool): Config
    requires total != 0.0
  {
    if visited then config.(weight := config.weight / total) else config
  }

  /** The first `i` weights have been divided. */
  ghost predicate HalfScaled(pools: OrderedMap<Category, Config>, before: OrderedMap<Category, Config>, total: real,
                             i: nat)
    requires total != 0.0
  {
    && WellFormed(before) && i <= |before.order| && pools.order == before.order && pools.table.Keys == before.table.Keys
    && forall c | c in before.table :: pools.table[c] == Scaled(before.table[c], total, c in before.order[..i])
  }

  lemma HalfScaledStart(before: OrderedMap<Category, Config>, total: real)
    requires WellFormed(before) && total != 0.0
    ensures HalfScaled(before, before, total, 0)
  {
  }

  lemma HalfScaledNext(pools: OrderedMap<Category, Config>, before: OrderedMap<Category, Config>, total: real, i: nat)
    requires total != 0.0 && i < |before.order| && HalfScaled(pools, before, total, i)
    ensures before.order[i] in pools.table
    ensures var c := before.order[i];
            HalfScaled(Set(pools, c, pools.table[c].(weight := pools.table[c].weight / total)), before, total, i + 1)
  {
    var c := before.order[i];
    assert c in before.order && c !in before.order[..i];
    assert before.order[..i + 1] == before.order[..i] + [c];
  }

  lemma HalfScaledDone(pools: OrderedMap<Category, Config>, before: OrderedMap<Category, Config>, total: real)
    requires total != 0.0 && total == TotalWeight(before.table, before.order)
             && HalfScaled(pools, before, total, |before.order|)
    ensures pools == Normalized(before)
  {
    hide TotalWeight;
    assert before.order[..|before.order|] == before.order;
    assert pools.table == Normalized(before).table;
  }
}
