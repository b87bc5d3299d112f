/** All rounds, and the snapshot they are saved to and restored from: src/consensus/ConsensusEngine.ts. */
module Engine {
  import opened Buckets
  import opened OrderedMaps
  import opened Prelude
  import opened Votes
  import Peers
  import Quorum
  import Rounds

  type RoundId = Rounds.RoundId

  /** The verification tables are part of the engine, but of no snapshot. */
  datatype State = State(
    rounds: OrderedMap<RoundId, Rounds.Round>, store: Store, history: Rounds.History, peers: Peers.Tables)

  datatype Snapshot = Snapshot(
    rounds: seq<Rounds.Round>, votes: seq<Vote>, quorumHistory: seq<(ContributionId, Quorum.Result)>)

  datatype Event =
    | StartContributionRound(id: RoundId, contribution: ContributionId, now: int)
    | OnRound(id: RoundId, e: Rounds.Event)  // a call on a round of the engine other than `castVote`
    | Cast(id: RoundId, voter: PeerId, kind: Kind, reason: Option<string>, now: int)  // `castVote` on a round
    | OnPeer(p: Peers.Event)                 // a change to the verification tables
    | VerifiedVote(id: RoundId, contribution: ContributionId, voter: PeerId, kind: Kind,
                   reason: Option<string>, signature: string, now: int)
    | ExternalResult(id: RoundId, contribution: ContributionId, result: Option<Rounds.Decision>,
                     approvalPercentage: real, decidedAt: int)
    | RemoveRound(id: RoundId)
    | RemoveVotesForContribution(contribution: ContributionId)
    | RemoveVotesByVoter(voter: PeerId)
    | Reset

  const Fresh: State := State(NoEntries(), Empty, NoEntries(), Peers.Empty)

  // ---------- Operations ----------

  /** The first round on the contribution, in the order the rounds were started. */
  function FirstOn(rounds: map<RoundId, Rounds.Round>, order: seq<RoundId>, c: ContributionId): Option<RoundId> {
    if order == [] then None
    else if order[0] in rounds && rounds[order[0]].contribution == c then Some(order[0])
    else FirstOn(rounds, order[1..], c)
  }

  function Find(s: State, id: RoundId, c: ContributionId): Option<RoundId> {
    if id in s.rounds.table then Some(id) else FirstOn(s.rounds.table, s.rounds.order, c)
  }

  /** The round is the one with that id; if there is none, the one on the contribution that was started first; it is
      none exactly if there is neither. */
  lemma FindIs(s: State, id: RoundId, c: ContributionId)
    requires WellFormed(s.rounds)
    ensures var found := Find(s, id, c);
            && (id in s.rounds.table ==> found == Some(id))
            && (id !in s.rounds.table && found.Some? ==>
                  exists i | 0 <= i < |s.rounds.order| ::
                    && s.rounds.order[i] == found.value && found.value in s.rounds.table
                    && s.rounds.table[found.value].contribution == c
                    && forall j | 0 <= j < i :: s.rounds.table[s.rounds.order[j]].contribution != c)
            && (found.None? <==> id !in s.rounds.table
                                 && forall r | r in s.rounds.table :: s.rounds.table[r].contribution != c)
  {
    FirstOnIs(s.rounds.table, s.rounds.order, c);
    InTable(s.rounds);
    hide FirstOn, WellFormed;
    forall i | 0 <= i < |s.rounds.order| ensures s.rounds.order[i] in s.rounds.table {
      assert s.rounds.order[i] in s.rounds.order;
    }
  }

  /** Starting under a new id files a pending round without votes at the end; under a known id it changes nothing.
      Removing takes that round and no other, and a reset leaves nothing. */
  lemma RoundsComeAndGo(q: Quorum.Requirements, s: State, id: RoundId, c: ContributionId, now: int)
    ensures var t := Step(q, s, StartContributionRound(id, c, now));
            if id in s.rounds.table then t == s
            else
              && t.rounds.table == s.rounds.table[id := Rounds.Round(id, c, Rounds.Pending, now, None, [], false, 0.0,
                                                                      None, 0)]
              && t.rounds.order == s.rounds.order + [id]
              && t.store == s.store && t.history == s.history && t.peers == s.peers
    ensures var t := Step(q, s, RemoveRound(id));
            && t.rounds.table == s.rounds.table - {id}
            && t.store == s.store && t.history == s.history && t.peers == s.peers
    ensures var t := Step(q, s, Reset);
            && t.rounds.table == map[] && t.rounds.order == [] && t.store.votes == map[] && t.history.table == map[]
            && t.peers.fingerprints == {} && t.peers.suspicious == {} && t.peers.banned == {}
  {
    hide Deleted;
  }

  /** Votes that are removed are those on that contribution, or of that voter, and no others. */
  lemma RemovalsAre(q: Quorum.Requirements, s: State, c: ContributionId, p: PeerId)
    requires Votes.Inv(s.store)
    ensures var t := Step(q, s, RemoveVotesForContribution(c));
            && t.store.votes == (map id | id in s.store.votes && id.contribution != c :: s.store.votes[id])
            && t == s.(store := t.store)
    ensures var t := Step(q, s, RemoveVotesByVoter(p));
            && t.store.votes == (map id | id in s.store.votes && id.voter != p :: s.store.votes[id])
            && t == s.(store := t.store)
  {
    RemoveForContributionKeeps(s.store, c);
    RemoveForVoterKeeps(s.store, p);
    hide Votes.Inv, RemoveForContribution, RemoveForVoter;
  }

  /** The first vote of a voter on a known contribution is stored, and listed last in the round it is for: that of the
      id, or else the first on the contribution. No other round changes. */
  lemma RemoteVoteCounts(q: Quorum.Requirements, s: State, id: RoundId, v: Vote)
    requires Votes.Inv(s.store) && Find(s, id, v.contribution).Some?
    requires var r := Find(s, id, v.contribution).value;
             r in s.rounds.table && s.rounds.table[r].contribution == v.contribution && IdOf(v) !in s.store.votes
    ensures var r := Find(s, id, v.contribution).value;
            var t := Step(q, s, VerifiedVote(id, v.contribution, v.voter, v.kind, v.reason, v.signature, v.timestamp));
            && t.store.votes == s.store.votes[IdOf(v) := v] && t.peers == s.peers
            && r in t.rounds.table && t.rounds.table[r].votes == s.rounds.table[r].votes + [v]
            && t.rounds == Set(s.rounds, r, t.rounds.table[r])
  {
    hide Find, Rounds.Step, Votes.Inv;
    Rounds.VoteListed(q, Rounds.State(s.rounds.table[Find(s, id, v.contribution).value], s.store, s.history), v);
  }

  /** Calls on a round of the engine change that round only, by its status, clock and result. */
  lemma RoundCalls(q: Quorum.Requirements, s: State, id: RoundId, now: int)
    requires id in s.rounds.table
    ensures var r := s.rounds.table[id];
            var due, late := r.startTime + q.timeout <= now, r.(status := Rounds.Expired, endTime := Some(now));
            && OnlyRound(s, Step(q, s, OnRound(id, Rounds.Start(now))), id,
                         if due then late else r.(status := Rounds.Voting))
            && OnlyRound(s, Step(q, s, OnRound(id, Rounds.Tick(now))), id,
                         if r.status == Rounds.Voting && due then late else r)
            && OnlyRound(s, Step(q, s, OnRound(id, Rounds.Fail(now))), id,
                         r.(status := Rounds.Failed, endTime := Some(now)))
            && OnlyRound(s, Step(q, s, OnRound(id, Rounds.Cancel(now))), id,
                         r.(status := Rounds.Failed, endTime := Some(now)))
  {
    var x := Rounds.State(s.rounds.table[id], s.store, s.history);
    Rounds.ClockEnds(q, x, now);
    Rounds.ResultWrites(q, x, Rounds.Approved, 0.0, now);
    hide Rounds.Step;
  }

  predicate OnlyRound(s: State, t: State, id: RoundId, r: Rounds.Round) {
    t == s.(rounds := t.rounds) && t.rounds.table == s.rounds.table[id := r] && t.rounds.order == s.rounds.order
  }

  /** A result decides the round it is for, if that is open, and changes no other round and nothing else. */
  lemma RemoteResultDecides(q: Quorum.Requirements, s: State, id: RoundId, c: ContributionId, result: Rounds.Decision,
                            percentage: real, at: int)
    requires Find(s, id, c).Some? && Find(s, id, c).value in s.rounds.table
    ensures var r := s.rounds.table[Find(s, id, c).value];
            var t := Step(q, s, ExternalResult(id, c, Some(result), percentage, at));
            if r.status == Rounds.Pending || r.status == Rounds.Voting then
              t == s.(rounds := Set(s.rounds, Find(s, id, c).value,
                                    Rounds.Round(r.id, r.contribution, Rounds.Reached, r.startTime, Some(at), r.votes,
                                                 true, percentage, Some(result), r.reachedEvents + 1)))
            else t.rounds.table == s.rounds.table && t == s.(rounds := t.rounds)
    ensures Step(q, s, ExternalResult(id, c, None, percentage, at)) == s
  {
    var r := Find(s, id, c).value;
    Rounds.ResultWrites(q, Rounds.State(s.rounds.table[r], s.store, s.history), result, percentage, at);
    assert s.rounds.table[r := s.rounds.table[r]] == s.rounds.table;
    hide Find, Rounds.Step;
  }

  lemma InTable(m: OrderedMap<RoundId, Rounds.Round>)
    requires WellFormed(m)
    ensures forall id :: id in m.order <==> id in m.table
  {
  }

  lemma {:induction false} FirstOnIs(rounds: map<RoundId, Rounds.Round>, order: seq<RoundId>, c: ContributionId)
    requires forall id <- order :: id in rounds
    ensures var found := FirstOn(rounds, order, c);
            if found.None? then forall id <- order :: rounds[id].contribution != c
            else exists i | 0 <= i < |order| ::
                   && order[i] == found.value && rounds[order[i]].contribution == c
                   && forall j | 0 <= j < i :: order[j] in rounds && rounds[order[j]].contribution != c
  {
    if order != [] {
      assert order == [order[0]] + order[1..];
      if rounds[order[0]].contribution == c {
        assert order[0] == FirstOn(rounds, order, c).value;
      } else {
        FirstOnIs(rounds, order[1..], c);
        if FirstOn(rounds, order[1..], c).Some? {
          var i :| 0 <= i < |order| - 1 && order[1..][i] == FirstOn(rounds, order[1..], c).value
                   && rounds[order[1..][i]].contribution == c
                   && forall j | 0 <= j < i :: order[1..][j] in rounds && rounds[order[1..][j]].contribution != c;
          forall j | 0 <= j < i + 1 ensures order[j] in rounds && rounds[order[j]].contribution != c {
            assert j > 0 ==> order[j] == order[1..][j - 1];
          }
          assert order[i + 1] == order[1..][i];
        }
      }
    }
  }

  function Apply(q: Quorum.Requirements, s: State, id: Option<RoundId>, e: Rounds.Event): State {
    if id.None? || id.value !in s.rounds.table then s
    else
      var t := Rounds.Step(q, Rounds.State(s.rounds.table[id.value], s.store, s.history), e);
      State(Set(s.rounds, id.value, t.round), t.store, t.history, s.peers)
  }

  /** There is such a round, and the vote store takes the vote, or has the same one already. */
  predicate VoteAccepted(s: State, id: Option<RoundId>, voter: PeerId, kind: Kind, reason: Option<string>,
                         signature: string, now: int) {
    && id.Some? && id.value in s.rounds.table
    && TryCast(s.store, Vote(s.rounds.table[id.value].contribution, voter, kind, reason, now, signature)).1.Accepted?
  }

  /** There is such a round, and it is decided with this result and percentage. */
  predicate Decided(s: State, id: Option<RoundId>, result: Option<Rounds.Decision>, percentage: real) {
    && id.Some? && id.value in s.rounds.table
    && s.rounds.table[id.value].status == Rounds.Reached && s.rounds.table[id.value].result == result
    && s.rounds.table[id.value].approvalPercentage == percentage
  }

  function Step(q: Quorum.Requirements, s: State, e: Event): State {
    match e
    case StartContributionRound(id, c, now) =>
      if id in s.rounds.table then s else s.(rounds := Set(s.rounds, id, Rounds.NewRound(id, c, now)))
    case OnRound(id, re) => if re.StoreChange? || re.CastVote? then s else Apply(q, s, Some(id), re)
    case Cast(id, voter, kind, reason, now) =>
      Apply(q, s, Some(id), Rounds.CastVote(Peers.Verified(s.peers, voter), voter, kind, reason, now))
    case OnPeer(p) => s.(peers := Peers.Step(s.peers, p))
    case VerifiedVote(id, c, voter, kind, reason, signature, now) =>
      Apply(q, s, Find(s, id, c), Rounds.VerifiedVote(voter, kind, reason, signature, now))
    case ExternalResult(id, c, result, percentage, decidedAt) =>
      if result.None? then s else Apply(q, s, Find(s, id, c), Rounds.External(result.value, percentage, decidedAt))
    case RemoveRound(id) => if id in s.rounds.table then s.(rounds := Delete(s.rounds, id)) else s
    case RemoveVotesForContribution(c) => s.(store := RemoveForContribution(s.store, c))
    case RemoveVotesByVoter(p) => s.(store := RemoveForVoter(s.store, p))
    case Reset => Fresh
  }

  function Run(q: Quorum.Requirements, s: State, events: seq<Event>): State {
    if events == [] then s else Step(q, Run(q, s, events[..|events| - 1]), events[|events| - 1])
  }

  function CreateSnapshot(s: State): Snapshot {
    Snapshot(Values(s.rounds), AllVotes(s.store), Entries(s.history))
  }

  /** Rounds are filed under the id they carry. */
  function RestoreRounds(rounds: seq<Rounds.Round>): OrderedMap<RoundId, Rounds.Round> {
    if rounds == [] then NoEntries()
    else
      var last := rounds[|rounds| - 1];
      Set(RestoreRounds(rounds[..|rounds| - 1]), last.id, last)
  }

  /** The verification tables stay as they are: those of a new engine are empty. */
  function RestoreSnapshot(snapshot: Snapshot, peers: Peers.Tables): State {
    State(RestoreRounds(snapshot.rounds), Restore(snapshot.votes), SetAll(snapshot.quorumHistory), peers)
  }

  /** The engine that a restart makes of this one. */
  function Restarted(s: State): State { RestoreSnapshot(CreateSnapshot(s), Peers.Empty) }

  // ---------- What every operation keeps ----------

  /** Every recorded quorum was one. */
  ghost predicate HistoryReached(history: Rounds.History) {
    forall c | c in history.table ::
      history.table[c].reached && history.table[c].approvalPercentage > history.table[c].rejectPercentage
  }

  ghost predicate RoundsFiled(rounds: OrderedMap<RoundId, Rounds.Round>) {
    WellFormed(rounds) && forall id | id in rounds.table :: rounds.table[id].id == id
  }

  ghost predicate Inv(s: State) {
    RoundsFiled(s.rounds) && Votes.Inv(s.store) && WellFormed(s.history) && HistoryReached(s.history)
  }

  lemma RoundStepKeeps(q: Quorum.Requirements, s: Rounds.State, e: Rounds.Event)
    requires Votes.Inv(s.store) && WellFormed(s.history) && HistoryReached(s.history) && !e.StoreChange?
    ensures var t := Rounds.Step(q, s, e);
            Votes.Inv(t.store) && WellFormed(t.history) && HistoryReached(t.history) && t.round.id == s.round.id
  {
    hide Votes.Inv, CountVotes, Votes.Add, Rounds.HasVoted;
    if e.CastVote? || e.VerifiedVote? {
      var signature := if e.CastVote? then "" else e.signature;
      AddKeeps(s.store, Vote(s.round.contribution, e.voter, e.kind, e.reason, e.now, signature));
    }
  }

  lemma ApplyKeeps(q: Quorum.Requirements, s: State, id: Option<RoundId>, e: Rounds.Event)
    requires Inv(s) && !e.StoreChange?
    ensures Inv(Apply(q, s, id, e))
  {
    hide Votes.Inv, Rounds.Step, HistoryReached;
    if id.Some? && id.value in s.rounds.table {
      RoundStepKeeps(q, Rounds.State(s.rounds.table[id.value], s.store, s.history), e);
    }
  }

  lemma StepKeeps(q: Quorum.Requirements, s: State, e: Event)
    requires Inv(s)
    ensures Inv(Step(q, s, e))
  {
    hide Votes.Inv, Apply, Find, RemoveForContribution, RemoveForVoter;
    match e
    case StartContributionRound(id, c, now) =>
    case OnRound(id, re) => if !re.StoreChange? { ApplyKeeps(q, s, Some(id), re); }
    case Cast(id, voter, kind, reason, now) =>
      ApplyKeeps(q, s, Some(id), Rounds.CastVote(Peers.Verified(s.peers, voter), voter, kind, reason, now));
    case OnPeer(p) =>
    case VerifiedVote(id, c, voter, kind, reason, signature, now) =>
      ApplyKeeps(q, s, Find(s, id, c), Rounds.VerifiedVote(voter, kind, reason, signature, now));
    case ExternalResult(id, c, result, percentage, decidedAt) =>
      if result.Some? { ApplyKeeps(q, s, Find(s, id, c), Rounds.External(result.value, percentage, decidedAt)); }
    case RemoveRound(id) => DeleteKeeps(s.rounds, id);
    case RemoveVotesForContribution(c) => RemoveForContributionKeeps(s.store, c);
    case RemoveVotesByVoter(p) => RemoveForVoterKeeps(s.store, p);
    case Reset => EmptyInv();
  }

  lemma {:induction false} RunKeeps(q: Quorum.Requirements, s: State, events: seq<Event>)
    requires Inv(s)
    ensures Inv(Run(q, s, events))
  {
    hide Inv, Step;
    if events != [] {
      RunKeeps(q, s, events[..|events| - 1]);
      StepKeeps(q, Run(q, s, events[..|events| - 1]), events[|events| - 1]);
    }
  }

  // ---------- Snapshot and restore ----------

  /** Equal rounds, history and votes, but for buckets that are empty in one index and missing in the other. */
  ghost predicate SameEngine(s: State, t: State) {
    s.rounds == t.rounds && s.history == t.history && SameStore(s.store, t.store)
  }

  lemma {:induction false} RoundsAreEntries(table: map<RoundId, Rounds.Round>, order: seq<RoundId>)
    requires forall id <- order :: id in table && table[id].id == id
    ensures RestoreRounds(ValuesOf(table, order)) == SetAll(EntriesOf(table, order))
  {
    if order != [] {
      var front, last := order[..|order| - 1], order[|order| - 1];
      RoundsAreEntries(table, front);
      SetAllAppend(EntriesOf(table, front), (last, table[last]));
      RestoreRoundsAppend(ValuesOf(table, front), table[last]);
    }
  }

  lemma RestoreRoundsAppend(rounds: seq<Rounds.Round>, r: Rounds.Round)
    ensures RestoreRounds(rounds + [r]) == Set(RestoreRounds(rounds), r.id, r)
  {
    assert (rounds + [r])[..|rounds|] == rounds;
  }

  /** Restoring a snapshot rebuilds the rounds, votes and history it was taken from, and nothing of the
      verification tables. */
  lemma SnapshotRoundTrip(s: State, peers: Peers.Tables)
    requires Inv(s)
    ensures SameEngine(RestoreSnapshot(CreateSnapshot(s), peers), s)
    ensures RestoreSnapshot(CreateSnapshot(s), peers).peers == peers
  {
    hide Votes.Inv, SameStore, Restore, AllVotes, SetAll, RestoreRounds, HistoryReached;
    RoundsAreEntries(s.rounds.table, s.rounds.order);
    SetAllOfEntries(s.rounds);
    SetAllOfEntries(s.history);
    RestoredStore(s.store);
  }

  // ---------- A restored engine goes on like the original ----------

  lemma SameCasting(s: Store, t: Store, v: Vote)
    requires SameStore(s, t)
    ensures SameStore(TryCast(s, v).0, TryCast(t, v).0) && TryCast(s, v).1 == TryCast(t, v).1
  {
    var id := IdOf(v);
    SameInsert(s.byContribution, t.byContribution, v.contribution, id);
    SameInsert(s.byVoter, t.byVoter, v.voter, id);
  }

  lemma SameInsert<K(!new)>(m: map<K, seq<VoteId>>, n: map<K, seq<VoteId>>, k: K, id: VoteId)
    requires forall j :: Bucket(m, j) == Bucket(n, j)
    ensures forall j :: Bucket(Insert(m, k, id), j) == Bucket(Insert(n, k, id), j)
  {
    forall j ensures Bucket(Insert(m, k, id), j) == Bucket(Insert(n, k, id), j) {
      assert Bucket(m, j) == Bucket(n, j) && Bucket(m, k) == Bucket(n, k);
    }
  }

  lemma SameRemove<K(!new)>(m: map<K, seq<VoteId>>, n: map<K, seq<VoteId>>, k: K, id: VoteId)
    requires forall j :: Bucket(m, j) == Bucket(n, j)
    ensures forall j :: Bucket(Remove(m, k, id), j) == Bucket(Remove(n, k, id), j)
  {
    forall j ensures Bucket(Remove(m, k, id), j) == Bucket(Remove(n, k, id), j) {
      assert Bucket(m, j) == Bucket(n, j) && Bucket(m, k) == Bucket(n, k);
    }
  }

  lemma SameRemoval(s: Store, t: Store, id: VoteId)
    requires SameStore(s, t)
    ensures SameStore(RemoveVote(s, id), RemoveVote(t, id))
  {
    if id in s.votes {
      SameRemove(s.byContribution, t.byContribution, s.votes[id].contribution, id);
      SameRemove(s.byVoter, t.byVoter, s.votes[id].voter, id);
    }
  }

  lemma {:induction false} SameRemovals(s: Store, t: Store, ids: seq<VoteId>)
    requires SameStore(s, t)
    ensures SameStore(RemoveEach(s, ids), RemoveEach(t, ids))
    decreases |ids|
  {
    hide SameStore, RemoveVote;
    if ids != [] {
      SameRemoval(s, t, ids[0]);
      SameRemovals(RemoveVote(s, ids[0]), RemoveVote(t, ids[0]), ids[1..]);
    }
  }

  lemma SameDrop<K(!new)>(m: map<K, seq<VoteId>>, n: map<K, seq<VoteId>>, k: K)
    requires forall j :: Bucket(m, j) == Bucket(n, j)
    ensures forall j :: Bucket(m - {k}, j) == Bucket(n - {k}, j)
    ensures Bucket(m, k) == [] ==> forall j :: Bucket(m - {k}, j) == Bucket(n, j)
  {
    forall j ensures Bucket(m - {k}, j) == Bucket(n - {k}, j) {
      assert Bucket(m, j) == Bucket(n, j);
    }
  }

  lemma SameForContribution(s: Store, t: Store, c: ContributionId)
    requires SameStore(s, t)
    ensures SameStore(RemoveForContribution(s, c), RemoveForContribution(t, c))
  {
    hide RemoveVote;
    assert Bucket(s.byContribution, c) == Bucket(t.byContribution, c);
    if c in s.byContribution || c in t.byContribution {
      var ids := Bucket(s.byContribution, c);
      SameRemovals(s, t, ids);
      SameDrop(RemoveEach(s, ids).byContribution, RemoveEach(t, ids).byContribution, c);
      SameDrop(RemoveEach(t, ids).byContribution, RemoveEach(s, ids).byContribution, c);
    }
  }

  lemma SameForVoter(s: Store, t: Store, p: PeerId)
    requires SameStore(s, t)
    ensures SameStore(RemoveForVoter(s, p), RemoveForVoter(t, p))
  {
    hide RemoveVote;
    assert Bucket(s.byVoter, p) == Bucket(t.byVoter, p);
    if p in s.byVoter || p in t.byVoter {
      var ids := Bucket(s.byVoter, p);
      SameRemovals(s, t, ids);
      SameDrop(RemoveEach(s, ids).byVoter, RemoveEach(t, ids).byVoter, p);
      SameDrop(RemoveEach(t, ids).byVoter, RemoveEach(s, ids).byVoter, p);
    }
  }

  lemma SameQuestions(s: Store, t: Store, c: ContributionId)
    requires SameStore(s, t)
    ensures VotesFor(s, c) == VotesFor(t, c) && CountVotes(s, c) == CountVotes(t, c)
  {
  }

  lemma SameRoundStep(q: Quorum.Requirements, s: Rounds.State, t: Rounds.State, e: Rounds.Event)
    requires s.round == t.round && s.history == t.history && SameStore(s.store, t.store) && !e.StoreChange?
    ensures var u, v := Rounds.Step(q, s, e), Rounds.Step(q, t, e);
            u.round == v.round && u.history == v.history && SameStore(u.store, v.store)
  {
    hide SameStore, VotesFor, CountVotes, TryCast;
    if e.CastVote? || e.VerifiedVote? {
      var v := Vote(s.round.contribution, e.voter, e.kind, e.reason, e.now, if e.CastVote? then "" else e.signature);
      SameCasting(s.store, t.store, v);
      SameQuestions(s.store, t.store, v.contribution);
      SameQuestions(TryCast(s.store, v).0, TryCast(t.store, v).0, v.contribution);
    }
  }

  lemma SameApply(q: Quorum.Requirements, s: State, t: State, id: Option<RoundId>, e: Rounds.Event)
    requires SameEngine(s, t) && !e.StoreChange?
    ensures SameEngine(Apply(q, s, id, e), Apply(q, t, id, e))
  {
    hide SameStore, Rounds.Step;
    if id.Some? && id.value in s.rounds.table {
      var r := s.rounds.table[id.value];
      SameRoundStep(q, Rounds.State(r, s.store, s.history), Rounds.State(r, t.store, t.history), e);
    }
  }

  /** `castVote` has no effect: the round is not there, or the voter has voted on its contribution. */
  predicate Moot(s: State, e: Event)
    requires e.Cast?
  {
    e.id !in s.rounds.table || Rounds.HasVoted(Rounds.State(s.rounds.table[e.id], s.store, s.history), e.voter)
  }

  /** A vote cast in both engines is verified in both or in neither, or has no effect anyway. */
  predicate Agree(s: State, t: State, e: Event) {
    e.Cast? ==> Moot(s, e) || (Peers.Verified(s.peers, e.voter) <==> Peers.Verified(t.peers, e.voter))
  }

  lemma SameStep(q: Quorum.Requirements, s: State, t: State, e: Event)
    requires SameEngine(s, t) && Agree(s, t, e)
    ensures SameEngine(Step(q, s, e), Step(q, t, e))
  {
    hide Apply, RemoveForContribution, RemoveForVoter, Peers.Verified;
    match e
    case StartContributionRound(id, c, now) =>
    case OnRound(id, re) => if !re.StoreChange? { SameApply(q, s, t, Some(id), re); }
    case Cast(id, voter, kind, reason, now) => SameCast(q, s, t, e);
    case OnPeer(p) =>
    case VerifiedVote(id, c, voter, kind, reason, signature, now) =>
      SameApply(q, s, t, Find(s, id, c), Rounds.VerifiedVote(voter, kind, reason, signature, now));
    case ExternalResult(id, c, result, percentage, decidedAt) =>
      if result.Some? { SameApply(q, s, t, Find(s, id, c), Rounds.External(result.value, percentage, decidedAt)); }
    case RemoveRound(id) =>
    case RemoveVotesForContribution(c) => SameForContribution(s.store, t.store, c);
    case RemoveVotesByVoter(p) => SameForVoter(s.store, t.store, p);
    case Reset =>
  }

  lemma SameMoot(s: State, t: State, e: Event)
    requires SameEngine(s, t) && e.Cast?
    ensures Moot(s, e) == Moot(t, e)
  {
    hide VotesFor;
    if e.id in s.rounds.table {
      SameQuestions(s.store, t.store, s.rounds.table[e.id].contribution);
    }
  }

  lemma MootCast(q: Quorum.Requirements, s: State, e: Event)
    requires e.Cast? && Moot(s, e)
    ensures Step(q, s, e) == s
  {
    hide Rounds.HasVoted, Rounds.WithVote;
    assert e.id in s.rounds.table ==> Set(s.rounds, e.id, s.rounds.table[e.id]).table == s.rounds.table;
  }

  lemma SameCast(q: Quorum.Requirements, s: State, t: State, e: Event)
    requires SameEngine(s, t) && Agree(s, t, e) && e.Cast?
    ensures SameEngine(Step(q, s, e), Step(q, t, e))
  {
    SameMoot(s, t, e);
    hide Apply, Moot, Peers.Verified, SameStore;
    if Moot(s, e) {
      MootCast(q, s, e);
      MootCast(q, t, e);
    } else {
      var verified := Peers.Verified(s.peers, e.voter);
      SameApply(q, s, t, Some(e.id), Rounds.CastVote(verified, e.voter, e.kind, e.reason, e.now));
    }
  }

  /** A vote that counts in one engine and is refused in the other sets them apart. */
  lemma CastTellsApart(q: Quorum.Requirements, s: State, t: State, e: Event)
    requires Inv(s) && Inv(t) && SameEngine(s, t) && !Agree(s, t, e)
    ensures !SameEngine(Step(q, s, e), Step(q, t, e))
  {
    SameMoot(s, t, e);
    CastStores(q, s, e);
    CastStores(q, t, e);
    hide Step, Inv, Moot, Peers.Verified;
    assert SameStore(s.store, t.store);
  }

  /** A vote that is not moot is stored exactly when its voter is verified. */
  lemma CastStores(q: Quorum.Requirements, s: State, e: Event)
    requires Inv(s) && e.Cast? && !Moot(s, e)
    ensures var id := VoteId(s.rounds.table[e.id].contribution, e.voter);
            id in Step(q, s, e).store.votes <==> Peers.Verified(s.peers, e.voter)
  {
    hide Peers.Verified, CountVotes, Quorum.Calculate, Votes.Inv;
    var r := s.rounds.table[e.id];
    OneVoteEach(s.store, r.contribution);
    assert VoteId(r.contribution, e.voter) !in s.store.votes;
    CastVoteStores(q, Rounds.State(r, s.store, s.history), e.voter, e.kind, e.reason, e.now);
    hide Rounds.Step;
  }

  lemma CastVoteStores(q: Quorum.Requirements, s: Rounds.State, voter: PeerId, kind: Kind, reason: Option<string>,
                       now: int)
    requires VoteId(s.round.contribution, voter) !in s.store.votes && !Rounds.HasVoted(s, voter)
    ensures var t := Rounds.Step(q, s, Rounds.CastVote(true, voter, kind, reason, now));
            VoteId(s.round.contribution, voter) in t.store.votes
    ensures Rounds.Step(q, s, Rounds.CastVote(false, voter, kind, reason, now)) == s
  {
    hide CountVotes, Quorum.Calculate, Rounds.HasVoted;
  }

  // ---------- What a restart changes ----------

  /** The verification tables after a run, from the registrations and marks alone. */
  function PeersAfter(peers: Peers.Tables, events: seq<Event>): Peers.Tables {
    if events == [] then peers
    else
      var before, e := PeersAfter(peers, events[..|events| - 1]), events[|events| - 1];
      if e.OnPeer? then Peers.Step(before, e.p) else if e.Reset? then Peers.Empty else before
  }

  lemma {:induction false} PeersOfRun(q: Quorum.Requirements, s: State, events: seq<Event>)
    ensures Run(q, s, events).peers == PeersAfter(s.peers, events)
  {
    if events != [] {
      PeersOfRun(q, s, events[..|events| - 1]);
      PeersOfStep(q, Run(q, s, events[..|events| - 1]), events[|events| - 1]);
      hide Step;
    }
  }

  lemma PeersOfStep(q: Quorum.Requirements, s: State, e: Event)
    ensures Step(q, s, e).peers ==
              if e.OnPeer? then Peers.Step(s.peers, e.p) else if e.Reset? then Peers.Empty else s.peers
  {
    hide Rounds.Step, Peers.Step, RemoveForContribution, RemoveForVoter, Find, Peers.Verified;
  }

  /** For every vote cast after the restart that would count without it: the voter is verified with the tables
      from before the restart exactly when it is with what has been registered and marked since. */
  ghost predicate VotersReregistered(q: Quorum.Requirements, s: State, after: seq<Event>) {
    forall k | 0 <= k < |after| && after[k].Cast? && !Moot(Run(q, s, after[..k]), after[k]) ::
      Peers.Verified(PeersAfter(s.peers, after[..k]), after[k].voter)
      <==> Peers.Verified(PeersAfter(Peers.Empty, after[..k]), after[k].voter)
  }

  ghost predicate AlwaysSame(q: Quorum.Requirements, s: State, t: State, events: seq<Event>) {
    forall k | 0 <= k <= |events| :: SameEngine(Run(q, s, events[..k]), Run(q, t, events[..k]))
  }

  ghost predicate AlwaysAgree(q: Quorum.Requirements, s: State, t: State, events: seq<Event>) {
    forall k | 0 <= k < |events| :: Agree(Run(q, s, events[..k]), Run(q, t, events[..k]), events[k])
  }

  lemma AlwaysAgreeFront(q: Quorum.Requirements, s: State, t: State, events: seq<Event>)
    requires events != []
    ensures var front, last := events[..|events| - 1], events[|events| - 1];
            AlwaysAgree(q, s, t, events) <==>
            AlwaysAgree(q, s, t, front) && Agree(Run(q, s, front), Run(q, t, front), last)
  {
    hide Run, Agree;
    var front := events[..|events| - 1];
    assert events[..|front|] == front && events[|front|] == events[|events| - 1];
    forall k | 0 <= k < |front| ensures front[..k] == events[..k] && front[k] == events[k] {
    }
  }

  lemma AlwaysSameFront(q: Quorum.Requirements, s: State, t: State, events: seq<Event>)
    requires events != []
    ensures AlwaysSame(q, s, t, events) <==>
            AlwaysSame(q, s, t, events[..|events| - 1]) && SameEngine(Run(q, s, events), Run(q, t, events))
  {
    hide Run, SameEngine;
    var front := events[..|events| - 1];
    assert events[..|events|] == events;
    if AlwaysSame(q, s, t, events) {
      assert SameEngine(Run(q, s, events[..|events|]), Run(q, t, events[..|events|]));
      forall k | 0 <= k <= |front| ensures SameEngine(Run(q, s, front[..k]), Run(q, t, front[..k])) {
        assert front[..k] == events[..k];
      }
    }
    if AlwaysSame(q, s, t, front) && SameEngine(Run(q, s, events), Run(q, t, events)) {
      forall k | 0 <= k <= |events| ensures SameEngine(Run(q, s, events[..k]), Run(q, t, events[..k])) {
        if k < |events| {
          assert front[..k] == events[..k] && SameEngine(Run(q, s, front[..k]), Run(q, t, front[..k]));
        }
      }
    }
  }

  lemma AlwaysSameNow(q: Quorum.Requirements, s: State, t: State, events: seq<Event>)
    requires AlwaysSame(q, s, t, events)
    ensures SameEngine(Run(q, s, events), Run(q, t, events))
  {
    hide Run, SameEngine;
    assert events[..|events|] == events;
  }

  lemma {:induction false} RunsAgree(q: Quorum.Requirements, s: State, t: State, events: seq<Event>)
    requires Inv(s) && Inv(t) && SameEngine(s, t)
    ensures AlwaysSame(q, s, t, events) <==> AlwaysAgree(q, s, t, events)
  {
    hide Inv, SameEngine, Agree, Step;
    if events == [] {
      assert forall k | 0 <= k <= |events| :: events[..k] == [];
      assert Run(q, s, []) == s && Run(q, t, []) == t;
    } else {
      var front, last := events[..|events| - 1], events[|events| - 1];
      RunsAgree(q, s, t, front);
      AlwaysAgreeFront(q, s, t, events);
      AlwaysSameFront(q, s, t, events);
      hide AlwaysAgree, AlwaysSame;
      if AlwaysSame(q, s, t, front) {
        var u, v := Run(q, s, front), Run(q, t, front);
        AlwaysSameNow(q, s, t, front);
        RunKeeps(q, s, front);
        RunKeeps(q, t, front);
        if Agree(u, v, last) {
          SameStep(q, u, v, last);
        } else {
          CastTellsApart(q, u, v, last);
        }
      }
    }
  }

  /** Saving, restarting and restoring at any point of any run is never noticed in rounds, votes, history and
      buckets if and only if every vote cast later that counts finds its voter verified as before: fingerprints,
      suspicions and bans are lost. */
  lemma RestartUnobservable(q: Quorum.Requirements, before: seq<Event>, after: seq<Event>)
    ensures var s := Run(q, Fresh, before);
            AlwaysSame(q, s, Restarted(s), after) <==> VotersReregistered(q, s, after)
  {
    hide Run, Inv, SameEngine, Moot, Restarted, Peers.Verified, AlwaysSame, VotersReregistered;
    EmptyInv();
    var s := Run(q, Fresh, before);
    var t := Restarted(s);
    FreshInv();
    RunKeeps(q, Fresh, before);
    SnapshotRoundTrip(s, Peers.Empty);
    RestartedInv(s);
    RestartedSame(s);
    RunsAgree(q, s, t, after);
    AgreeIsRegistered(q, s, t, after);
  }

  lemma FreshInv()
    ensures Inv(Fresh)
  {
    EmptyInv();
    hide Votes.Inv;
  }

  lemma RestartedSame(s: State)
    requires Inv(s)
    ensures SameEngine(s, Restarted(s))
  {
    SnapshotRoundTrip(s, Peers.Empty);
    hide RestoreRounds, Restore, SetAll;
  }

  /** Two runs whose verification tables began as these and empty. */
  lemma AgreeIsRegistered(q: Quorum.Requirements, s: State, t: State, after: seq<Event>)
    requires t.peers == Peers.Empty
    ensures AlwaysAgree(q, s, t, after) <==> VotersReregistered(q, s, after)
  {
    hide Run, Moot, Peers.Verified, PeersAfter;
    forall k | 0 <= k < |after|
      ensures Agree(Run(q, s, after[..k]), Run(q, t, after[..k]), after[k]) <==>
                (after[k].Cast? && !Moot(Run(q, s, after[..k]), after[k]) ==>
                  (Peers.Verified(PeersAfter(s.peers, after[..k]), after[k].voter)
                   <==> Peers.Verified(PeersAfter(Peers.Empty, after[..k]), after[k].voter)))
    {
      PeersOfRun(q, s, after[..k]);
      PeersOfRun(q, t, after[..k]);
    }
    hide Agree;
  }

  lemma RestartedInv(s: State)
    requires Inv(s)
    ensures Inv(Restarted(s)) && Restarted(s).peers == Peers.Empty
  {
    SnapshotRoundTrip(s, Peers.Empty);
    RestoreKeeps(AllVotes(s.store));
    hide Votes.Inv, HistoryReached, RestoreRounds, Restore, SetAll, SameStore;
  }

  /** A peer that is registered and votes after the restart: its vote is stored without the restart, and is
      refused with it. */
  lemma RestartRefusesVoter(q: Quorum.Requirements, id: RoundId, c: ContributionId, p: PeerId, kind: Kind, now: int)
    ensures var s := Run(q, Fresh, [OnPeer(Peers.Register(p)), StartContributionRound(id, c, now)]);
            var e := Cast(id, p, kind, None, now);
            VoteId(c, p) in Step(q, s, e).store.votes && VoteId(c, p) !in Step(q, Restarted(s), e).store.votes
  {
    var events := [OnPeer(Peers.Register(p)), StartContributionRound(id, c, now)];
    var s, e := Run(q, Fresh, events), Cast(id, p, kind, None, now);
    StartedWith(q, id, c, p, now);
    EmptyInv();
    RunKeeps(q, Fresh, events);
    RestartedInv(s);
    SnapshotRoundTrip(s, Peers.Empty);
    NotMoot(s, e);
    SameMoot(Restarted(s), s, e);
    hide Run, Inv, Step, Restarted, SameStore, Moot;
    CastStores(q, s, e);
    CastStores(q, Restarted(s), e);
  }

  lemma StartedWith(q: Quorum.Requirements, id: RoundId, c: ContributionId, p: PeerId, now: int)
    ensures var s := Run(q, Fresh, [OnPeer(Peers.Register(p)), StartContributionRound(id, c, now)]);
            && s.peers == Peers.Tables({p}, {}, {}) && s.store == Empty
            && id in s.rounds.table && s.rounds.table[id].contribution == c
  {
    var events := [OnPeer(Peers.Register(p)), StartContributionRound(id, c, now)];
    assert events[..1] == [OnPeer(Peers.Register(p))] && events[..1][..0] == [];
    assert Run(q, Fresh, events[..1]) == Step(q, Fresh, events[0]);
    assert {} + {p} == {p};
  }

  lemma NotMoot(s: State, e: Event)
    requires e.Cast? && e.id in s.rounds.table && s.store == Empty
    ensures !Moot(s, e)
  {
  }

  // ---------- The engine ----------

  class ConsensusEngine {
    const voteManager: VoteManager
    const quorumManager: Quorum.QuorumManager
    const peerVerification: Peers.PeerVerification
    var rounds: OrderedMap<RoundId, Rounds.ConsensusRound>

    ghost function Objects(): set<Rounds.ConsensusRound>
      reads this
    {
      set id | id in rounds.table :: rounds.table[id]
    }

    ghost function Value(): State
      reads this, Objects(), voteManager, quorumManager, peerVerification
    {
      State(RoundValues(), voteManager.Value(), quorumManager.quorumHistory, peerVerification.Value())
    }

    ghost function RoundValues(): OrderedMap<RoundId, Rounds.Round>
      reads this, Objects()
    {
      OrderedMap(map id | id in rounds.table :: rounds.table[id].round, rounds.order)
    }

    /** The rounds share the engine's managers; each is filed under one id, the one it carries. */
    ghost predicate Filed()
      reads this, Objects()
    {
      && WellFormed(rounds)
      && (forall id | id in rounds.table ::
            && rounds.table[id].voteManager == voteManager && rounds.table[id].quorumManager == quorumManager
            && rounds.table[id].peerVerification == peerVerification
            && rounds.table[id].round.id == id)
    }

    ghost predicate Valid()
      reads this, Objects(), voteManager
    {
      Filed() && voteManager.Valid()
    }

    constructor (requirements: Quorum.Requirements)
      ensures Valid() && Value() == Fresh && quorumManager.requirements == requirements
      ensures fresh(voteManager) && fresh(quorumManager) && fresh(peerVerification)
    {
      voteManager := new VoteManager();
      quorumManager := new Quorum.QuorumManager(requirements);
      peerVerification := new Peers.PeerVerification();
      rounds := NoEntries();
      new;
      assert RoundValues() == NoEntries();
    }

    /** A round object for the record, filed under its id. */
    method Make(r: Rounds.Round) returns (round: Rounds.ConsensusRound)
      requires Filed()
      modifies this
      ensures Filed() && fresh(round) && rounds == Set(old(rounds), r.id, round)
      ensures RoundValues() == Set(old(RoundValues()), r.id, r)
    {
      hide WellFormed;
      round := new Rounds.ConsensusRound(r, voteManager, quorumManager, peerVerification);
      SetKeeps(rounds, r.id, round);
      rounds := Set(rounds, r.id, round);
      assert RoundValues() == Set(old(RoundValues()), r.id, r);
    }

    method StartContributionRound(id: RoundId, c: ContributionId, now: int) returns (round: Rounds.ConsensusRound)
      requires Valid()
      modifies this
      ensures Valid() && Value() == Step(quorumManager.requirements, old(Value()),
                                         Event.StartContributionRound(id, c, now))
      ensures id in rounds.table && round == rounds.table[id]
    {
      if id in rounds.table {
        return rounds.table[id];
      }
      hide Votes.Inv, Filed, Set;
      round := Make(Rounds.NewRound(id, c, now));
      SetPresent(old(rounds), id, round);
    }

    method FindRound(id: RoundId, c: ContributionId) returns (found: Option<RoundId>)
      requires Valid()
      ensures found == Find(Value(), id, c)
      ensures found.Some? ==> found.value in rounds.table
    {
      if id in rounds.table {
        return Some(id);
      }
      ghost var table := RoundValues().table;
      for i := 0 to |rounds.order|
        invariant FirstOn(table, rounds.order[i..], c) == FirstOn(table, rounds.order, c)
      {
        assert rounds.order[i..][1..] == rounds.order[i + 1..];
        assert rounds.order[i] in rounds.order;
        if rounds.table[rounds.order[i]].round.contribution == c {
          return Some(rounds.order[i]);
        }
      }
      return None;
    }

    /** The round's own handling of a vote, with all other rounds as they were. */
    method VoteOn(id: RoundId, voter: PeerId, kind: Kind, reason: Option<string>, signature: string, now: int)
      returns (applied: bool)
      requires Valid() && id in rounds.table
      modifies Objects(), voteManager, quorumManager
      ensures Valid()
      ensures Value() == Apply(quorumManager.requirements, old(Value()), Some(id),
                               Rounds.VerifiedVote(voter, kind, reason, signature, now))
      ensures applied == VoteAccepted(old(Value()), Some(id), voter, kind, reason, signature, now)
    {
      hide Rounds.Step, Votes.Inv, Set, WellFormed, TryCast;
      ghost var s, e := Value(), Rounds.VerifiedVote(voter, kind, reason, signature, now);
      var round := rounds.table[id];
      RoundStepId(quorumManager.requirements, round.Value(), e);
      applied := round.RecordVerifiedVote(voter, kind, reason, signature, now);
      Updated(s.rounds, RoundValues(), id);
    }

    method RecordVerifiedVote(id: RoundId, c: ContributionId, voter: PeerId, kind: Kind, reason: Option<string>,
                              signature: string, now: int)
      returns (applied: bool)
      requires Valid()
      modifies Objects(), voteManager, quorumManager
      ensures Valid()
      ensures Value() == Step(quorumManager.requirements, old(Value()),
                              VerifiedVote(id, c, voter, kind, reason, signature, now))
      ensures applied <==> VoteAccepted(old(Value()), Find(old(Value()), id, c), voter, kind, reason, signature, now)
    {
      hide Rounds.Step, Votes.Inv, Find, FirstOn, Set, WellFormed, TryCast;
      var found := FindRound(id, c);
      if found.None? {
        return false;
      }
      applied := VoteOn(found.value, voter, kind, reason, signature, now);
    }

    method DecideOn(id: RoundId, result: Rounds.Decision, percentage: real, decidedAt: int) returns (applied: bool)
      requires Valid() && id in rounds.table
      modifies Objects()
      ensures Valid()
      ensures Value() == Apply(quorumManager.requirements, old(Value()), Some(id),
                               Rounds.External(result, percentage, decidedAt))
      ensures applied == Decided(Value(), Some(id), Some(result), percentage)
    {
      hide Rounds.Step, Votes.Inv, Set, WellFormed;
      ghost var s, e := Value(), Rounds.External(result, percentage, decidedAt);
      var round := rounds.table[id];
      RoundStepId(quorumManager.requirements, round.Value(), e);
      applied := round.RecordExternalResult(result, percentage, decidedAt);
      Updated(s.rounds, RoundValues(), id);
    }

    method RecordExternalResult(id: RoundId, c: ContributionId, result: Option<Rounds.Decision>, percentage: real,
                                decidedAt: int)
      returns (applied: bool)
      requires Valid()
      modifies Objects()
      ensures Valid()
      ensures Value() == Step(quorumManager.requirements, old(Value()),
                              ExternalResult(id, c, result, percentage, decidedAt))
      ensures applied <==> result.Some? && Decided(Value(), Find(old(Value()), id, c), result, percentage)
    {
      hide Rounds.Step, Votes.Inv, Find, FirstOn, Set, WellFormed, Decided;
      if result.None? {
        return false;
      }
      var found := FindRound(id, c);
      if found.None? {
        NotDecided(Value(), result, percentage);
        return false;
      }
      applied := DecideOn(found.value, result.value, percentage, decidedAt);
    }

    method Forget(id: RoundId)
      requires Filed()
      modifies this
      ensures Filed() && RoundValues() == Delete(old(RoundValues()), id)
    {
      DeleteKeeps(rounds, id);
      rounds := Delete(rounds, id);
      Removed(old(RoundValues()), RoundValues(), id);
    }

    method RemoveRoundById(id: RoundId, now: int) returns (removed: bool)
      requires Valid()
      modifies this, Objects()
      ensures Valid() && Value() == Step(quorumManager.requirements, old(Value()), RemoveRound(id))
      ensures removed <==> id in old(rounds).table
    {
      hide Votes.Inv, Delete, Set, Rounds.Step;
      if id !in rounds.table {
        return false;
      }
      ghost var before := RoundValues();
      assert forall other | other in rounds.table && other != id :: rounds.table[other] != rounds.table[id];
      RoundStepId(quorumManager.requirements, rounds.table[id].Value(), Rounds.Cancel(now));
      rounds.table[id].CancelRound(now);
      Updated(before, RoundValues(), id);
      Forget(id);
      DeleteSet(before, id, Rounds.Step(quorumManager.requirements, old(rounds.table[id].Value()),
                                        Rounds.Cancel(now)).round);
      return true;
    }

    /** Every round is cancelled before it is forgotten. */
    method ClearAllRounds(now: int)
      requires Valid()
      modifies this, Objects()
      ensures Valid() && rounds == NoEntries()
      ensures forall r <- old(Objects()) :: r.round.status == Rounds.Failed
    {
      ghost var all := Objects();
      for i := 0 to |rounds.order|
        invariant rounds == old(rounds)
        invariant forall j | 0 <= j < i ::
                    rounds.order[j] in rounds.table && rounds.table[rounds.order[j]].round.status == Rounds.Failed
      {
        assert rounds.order[i] in rounds.order;
        rounds.table[rounds.order[i]].CancelRound(now);
      }
      assert forall id | id in rounds.table :: id in rounds.order;
      rounds := NoEntries();
    }

    method ResetEngine(now: int)
      requires Valid()
      modifies this, Objects(), voteManager, quorumManager, peerVerification
      ensures Valid() && Value() == Fresh
    {
      ClearAllRounds(now);
      voteManager.ClearAll();
      quorumManager.ClearHistory();
      peerVerification.ClearAll();
      assert RoundValues() == NoEntries();
    }

    method SavedRounds() returns (saved: seq<Rounds.Round>)
      requires Filed()
      ensures saved == Values(RoundValues())
    {
      ghost var table := RoundValues().table;
      saved := [];
      for i := 0 to |rounds.order|
        invariant saved == ValuesOf(table, rounds.order[..i])
      {
        assert rounds.order[..i + 1][..i] == rounds.order[..i];
        assert rounds.order[i] in rounds.order;
        saved := saved + [rounds.table[rounds.order[i]].round];
      }
      assert rounds.order[..|rounds.order|] == rounds.order;
    }

    method TakeSnapshot() returns (snapshot: Snapshot)
      requires Valid()
      ensures snapshot == CreateSnapshot(Value())
    {
      hide Votes.Inv, AllVotes, RoundValues, Values, Entries;
      var votes := voteManager.GetAllVotes();
      var saved := SavedRounds();
      snapshot := Snapshot(saved, votes, Entries(quorumManager.quorumHistory));
    }

    /** New round objects are made; the managers are refilled in place, all but the verification tables. */
    method Load(snapshot: Snapshot)
      requires Valid()
      modifies this, voteManager, quorumManager
      ensures Valid() && Value() == RestoreSnapshot(snapshot, peerVerification.Value())
      ensures peerVerification.Value() == old(peerVerification.Value())
      ensures fresh(Objects())
    {
      hide Votes.Inv, Restore, SetAll, Set, RestoreRounds, WellFormed;
      voteManager.RestoreVotes(snapshot.votes);
      quorumManager.RestoreSnapshotEntries(snapshot.quorumHistory);
      rounds := NoEntries();
      NoneFiled();
      assert RoundValues() == NoEntries();
      for i := 0 to |snapshot.rounds|
        invariant Valid() && forall id | id in rounds.table :: fresh(rounds.table[id])
        invariant RoundValues() == RestoreRounds(snapshot.rounds[..i])
        invariant voteManager.Value() == Restore(snapshot.votes)
                  && quorumManager.quorumHistory == SetAll(snapshot.quorumHistory)
      {
        hide Filed;
        assert snapshot.rounds[..i + 1] == snapshot.rounds[..i] + [snapshot.rounds[i]];
        RestoreRoundsAppend(snapshot.rounds[..i], snapshot.rounds[i]);
        var before := rounds;
        var round := Make(snapshot.rounds[i]);
        SetObjects(before, snapshot.rounds[i].id, round);
      }
      assert snapshot.rounds[..|snapshot.rounds|] == snapshot.rounds;
    }
  }

  lemma NoneFiled()
    ensures WellFormed(NoEntries<RoundId, Rounds.ConsensusRound>()) && RestoreRounds([]) == NoEntries()
  {
  }

  lemma SetObjects(m: OrderedMap<RoundId, Rounds.ConsensusRound>, id: RoundId, r: Rounds.ConsensusRound)
    ensures forall k | k in Set(m, id, r).table ::
              Set(m, id, r).table[k] == r || (k in m.table && Set(m, id, r).table[k] == m.table[k])
  {
  }

  lemma Updated(before: OrderedMap<RoundId, Rounds.Round>, after: OrderedMap<RoundId, Rounds.Round>, id: RoundId)
    requires after.order == before.order && after.table.Keys == before.table.Keys && id in before.table
    requires forall other | other in before.table && other != id :: after.table[other] == before.table[other]
    ensures after == Set(before, id, after.table[id])
  {
  }

  lemma DeleteSet<V>(m: OrderedMap<RoundId, V>, id: RoundId, v: V)
    requires id in m.table
    ensures Delete(Set(m, id, v), id) == Delete(m, id)
  {
  }

  lemma Removed(before: OrderedMap<RoundId, Rounds.Round>, after: OrderedMap<RoundId, Rounds.Round>, id: RoundId)
    requires after.order == Deleted(before.order, id) && after.table.Keys == before.table.Keys - {id}
    requires forall other | other in after.table :: after.table[other] == before.table[other]
    ensures after == Delete(before, id)
  {
  }

  lemma SetPresent<V>(m: OrderedMap<RoundId, V>, id: RoundId, v: V)
    ensures id in Set(m, id, v).table && Set(m, id, v).table[id] == v
  {
  }

  lemma NotDecided(s: State, result: Option<Rounds.Decision>, percentage: real)
    ensures !Decided(s, None, result, percentage)
  {
  }

  lemma RoundStepId(q: Quorum.Requirements, s: Rounds.State, e: Rounds.Event)
    ensures Rounds.Step(q, s, e).round.id == s.round.id
  {
    hide CountVotes, TryCast, Rounds.HasVoted;
  }
}
