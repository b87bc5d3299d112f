/** The quorum rule of src/consensus/QuorumManager.ts, over exact reals. */
module Quorum {
  import opened OrderedMaps

  datatype Requirements = Requirements(minPeers: int, requiredAgreement: real, timeout: int)

  datatype Result = Result(
    reached: bool,
    requiredPeers: int,
    actualPeers: nat,
    requiredAgreement: real,
    actualAgreement: real,
    approvalPercentage: real,
    rejectPercentage: real,
    abstainPercentage: real,
    timestamp: int)

  function Percentage(count: nat, total: nat): real {
    if total > 0 then count as real / total as real * 100.0 else 0.0
  }

  function Calculate(q: Requirements, approve: nat, reject: nat, abstain: nat, now: int): Result {
    var total := approve + reject + abstain;
    var approval, rejection := Percentage(approve, total), Percentage(reject, total);
    var agreement := approval / 100.0;
    Result(
      total >= q.minPeers && agreement >= q.requiredAgreement && approval > rejection,
      q.minPeers, total, q.requiredAgreement, agreement, approval, rejection, Percentage(abstain, total), now)
  }

  lemma Fractions(a: real, b: real, t: real)
    requires t > 0.0
    ensures a / t > b / t <==> a > b
    ensures a / t * t == a
  {
    var x, y := a / t, b / t;
    assert x * t == a && y * t == b;
    if x > y {
      assert (x - y) * t > 0.0;
    } else {
      assert (y - x) * t >= 0.0;
    }
  }

  lemma AtLeast(a: real, t: real, r: real)
    requires t > 0.0
    ensures a / t >= r <==> a >= r * t
  {
    var x := a / t;
    assert x * t == a;
    if x >= r {
      assert (x - r) * t >= 0.0;
    } else {
      assert (r - x) * t > 0.0;
    }
  }

  /** In counts: enough voters, enough approval, and more approvals than rejections. */
  lemma ReachedIff(q: Requirements, approve: nat, reject: nat, abstain: nat, now: int)
    ensures var total := approve + reject + abstain;
            Calculate(q, approve, reject, abstain, now).reached
            <==> total >= q.minPeers && approve > reject && approve as real >= q.requiredAgreement * total as real
  {
    var total := approve + reject + abstain;
    if total > 0 {
      Fractions(approve as real, reject as real, total as real);
      AtLeast(approve as real, total as real, q.requiredAgreement);
      assert Percentage(approve, total) / 100.0 == approve as real / total as real;
    }
  }

  class QuorumManager {
    const requirements: Requirements
    var quorumHistory: OrderedMap<string, Result>

    constructor (requirements: Requirements)
      ensures this.requirements == requirements && quorumHistory == NoEntries()
    {
      this.requirements := requirements;
      quorumHistory := NoEntries();
    }

    method RecordQuorum(contribution: string, result: Result)
      modifies this
      ensures quorumHistory == Set(old(quorumHistory), contribution, result)
    {
      quorumHistory := Set(quorumHistory, contribution, result);
    }

    method ClearHistory()
      modifies this
      ensures quorumHistory == NoEntries()
    {
      quorumHistory := NoEntries();
    }

    method RestoreSnapshotEntries(entries: seq<(string, Result)>)
      modifies this
      ensures quorumHistory == SetAll(entries)
    {
      ClearHistory();
      for i := 0 to |entries|
        invariant quorumHistory == SetAll(entries[..i])
      {
        SetAllAppend(entries[..i], entries[i]);
        assert entries[..i + 1] == entries[..i] + [entries[i]];
        RecordQuorum(entries[i].0, entries[i].1);
      }
      assert entries[..|entries|] == entries;
    }
  }
}

/** The life of one consensus round: src/consensus/ConsensusRound.ts. */
module Rounds {
  import opened OrderedMaps
  import opened Prelude
  import opened Votes
  import Peers
  import Quorum

  type RoundId = string

  datatype Status = Pending | Voting | Reached | Failed | Expired

  datatype Decision = Approved | Rejected

  /** The fields of the round, with the number of "round reached" events it has emitted. */
  datatype Round = Round(
    id: RoundId,
    contribution: ContributionId,
    status: Status,
    startTime: int,
    endTime: Option<int>,
    votes: seq<Vote>,
    quorumReached: bool,
    approvalPercentage: real,
    result: Option<Decision>,
    reachedEvents: nat)

  type History = OrderedMap<ContributionId, Quorum.Result>

  /** A round, and the vote store and quorum history it shares with other rounds. */
  datatype State = State(round: Round, store: Store, history: History)

  datatype Event =
    | Start(now: int)
    | CastVote(verified: bool, voter: PeerId, kind: Kind, reason: Option<string>, now: int)
    | VerifiedVote(voter: PeerId, kind: Kind, reason: Option<string>, signature: string, now: int)
    | External(result: Decision, approvalPercentage: real, decidedAt: int)
    | Tick(now: int)
    | Fail(now: int)
    | Cancel(now: int)
    | StoreChange(store: Store)  // votes cast or removed elsewhere

  function NewRound(id: RoundId, c: ContributionId, now: int): Round {
    Round(id, c, Pending, now, None, [], false, 0.0, None, 0)
  }

  // ---------- Transitions ----------

  function ExpireIfTimedOut(q: Quorum.Requirements, r: Round, now: int): Round {
    if r.status == Voting && now - r.startTime >= q.timeout then r.(status := Expired, endTime := Some(now)) else r
  }

  function Complete(r: Round, decision: Decision, now: int): Round {
    r.(status := Reached, result := Some(decision), endTime := Some(now), reachedEvents := r.reachedEvents + 1)
  }

  function QuorumOf(q: Quorum.Requirements, store: Store, c: ContributionId, now: int): Quorum.Result {
    var counts := CountVotes(store, c);
    Quorum.Calculate(q, counts.approve, counts.reject, counts.abstain, now)
  }

  function CheckQuorum(q: Quorum.Requirements, s: State, now: int): State {
    var result := QuorumOf(q, s.store, s.round.contribution, now);
    var r := s.round.(approvalPercentage := result.approvalPercentage);
    if result.reached && !r.quorumReached then
      var decision := if result.approvalPercentage > result.rejectPercentage then Approved else Rejected;
      s.(round := Complete(r.(quorumReached := true), decision, now), history := Set(s.history, r.contribution, result))
    else s.(round := r)
  }

  function WithVote(q: Quorum.Requirements, s: State, v: Vote): State {
    var (store, result) := TryCast(s.store, v);
    if result.Conflict? || result.duplicate then s.(store := store)
    else CheckQuorum(q, State(s.round.(votes := s.round.votes + [v]), store, s.history), v.timestamp)
  }

  function HasVoted(s: State, voter: PeerId): bool {
    exists v <- VotesFor(s.store, s.round.contribution) :: v.voter == voter
  }

  function Step(q: Quorum.Requirements, s: State, e: Event): State {
    match e
    case Start(now) => s.(round := ExpireIfTimedOut(q, s.round.(status := Voting), now))
    case CastVote(verified, voter, kind, reason, now) =>
      if !verified || HasVoted(s, voter) then s
      else WithVote(q, s, Vote(s.round.contribution, voter, kind, reason, now, ""))
    case VerifiedVote(voter, kind, reason, signature, now) =>
      WithVote(q, s, Vote(s.round.contribution, voter, kind, reason, now, signature))
    case External(result, percentage, decidedAt) =>
      if s.round.status == Reached || s.round.status == Failed || s.round.status == Expired then s
      else
        s.(round := s.round.(status := Reached, result := Some(result), quorumReached := true,
                             approvalPercentage := percentage, endTime := Some(decidedAt),
                             reachedEvents := s.round.reachedEvents + 1))
    case Tick(now) => s.(round := ExpireIfTimedOut(q, s.round, now))
    case Fail(now) => s.(round := s.round.(status := Failed, endTime := Some(now)))
    case Cancel(now) => s.(round := s.round.(status := Failed, endTime := Some(now)))
    case StoreChange(store) => s.(store := store)
  }

  function Run(q: Quorum.Requirements, s: State, events: seq<Event>): State {
    if events == [] then s else Step(q, Run(q, s, events[..|events| - 1]), events[|events| - 1])
  }

  // ---------- What votes, clock and results write ----------

  /** Enough votes, at least the agreement asked for, and more approvals than rejections. */
  predicate Agreed(q: Quorum.Requirements, approve: nat, reject: nat, abstain: nat) {
    var total := approve + reject + abstain;
    total >= q.minPeers && approve > reject && approve as real >= q.requiredAgreement * total as real
  }

  lemma PercentageIs(count: nat, total: nat)
    requires total > 0
    ensures Quorum.Percentage(count, total) * total as real == 100.0 * count as real
  {
    var x := count as real / total as real;
    assert x * total as real == count as real;
    assert x * 100.0 * total as real == 100.0 * (x * total as real);
  }

  /** A new vote is stored and listed. With it the approval percentage is that of the stored votes on the contribution.
      If the round was undecided and these votes agree, it is decided as an approval at the time of the vote, and the
      quorum is recorded; otherwise it stays as it was but for the vote and the percentage. */
  lemma VoteDecides(q: Quorum.Requirements, s: State, v: Vote)
    requires Votes.Inv(s.store) && v.contribution == s.round.contribution && IdOf(v) !in s.store.votes
    ensures var t, c := WithVote(q, s, v), v.contribution;
            var a, r, n := |OnKind(t.store.votes, c, Approve)|, |OnKind(t.store.votes, c, Reject)|,
                           |OnKind(t.store.votes, c, Abstain)|;
            var listed := s.round.(votes := s.round.votes + [v], approvalPercentage := t.round.approvalPercentage);
            && t.store.votes == s.store.votes[IdOf(v) := v]
            && a + r + n > 0 && t.round.approvalPercentage * (a + r + n) as real == 100.0 * a as real
            && if !s.round.quorumReached && Agreed(q, a, r, n) then
                 && t.round == listed.(quorumReached := true, status := Reached, result := Some(Approved),
                                       endTime := Some(v.timestamp), reachedEvents := s.round.reachedEvents + 1)
                 && c in t.history.table && t.history.table[c].reached && t.history.table[c].actualPeers == a + r + n
                 && t.history.table[c].timestamp == v.timestamp && t.history == Set(s.history, c, t.history.table[c])
               else t.round == listed && t.history == s.history
  {
    hide Votes.Inv, Add, TryCast, CheckQuorum, CountVotes, OnKind, Agreed;
    AddKeeps(s.store, v);
    TryCastIff(s.store, v);
    NewVoteAdded(s.store, v);
    var u := State(s.round.(votes := s.round.votes + [v]), Add(s.store, v), s.history);
    assert WithVote(q, s, v) == CheckQuorum(q, u, v.timestamp);
    CountsAre(u.store, v.contribution);
    assert v.kind == Approve || v.kind == Reject || v.kind == Abstain;
    QuorumDecides(q, u, v.timestamp);
  }

  lemma NewVoteAdded(s: Store, v: Vote)
    requires Votes.Inv(s) && IdOf(v) !in s.votes
    ensures TryCast(s, v) == (Add(s, v), Accepted(v, false)) && Add(s, v).votes == s.votes[IdOf(v) := v]
    ensures |OnKind(Add(s, v).votes, v.contribution, v.kind)| > 0
  {
    hide Votes.Inv;
    assert IdOf(v) in OnKind(Add(s, v).votes, v.contribution, v.kind);
  }

  lemma QuorumDecides(q: Quorum.Requirements, s: State, now: int)
    requires CountVotes(s.store, s.round.contribution).approve + CountVotes(s.store, s.round.contribution).reject
             + CountVotes(s.store, s.round.contribution).abstain > 0
    ensures var t, c, counts := CheckQuorum(q, s, now), s.round.contribution, CountVotes(s.store, s.round.contribution);
            var a, r, n := counts.approve, counts.reject, counts.abstain;
            var counted := s.round.(approvalPercentage := t.round.approvalPercentage);
            && t.store == s.store
            && t.round.approvalPercentage * (a + r + n) as real == 100.0 * a as real
            && if !s.round.quorumReached && Agreed(q, a, r, n) then
                 && t.round == counted.(quorumReached := true, status := Reached, result := Some(Approved),
                                        endTime := Some(now), reachedEvents := s.round.reachedEvents + 1)
                 && c in t.history.table && t.history.table[c].reached && t.history.table[c].actualPeers == a + r + n
                 && t.history.table[c].timestamp == now && t.history == Set(s.history, c, t.history.table[c])
               else t.round == counted && t.history == s.history
  {
    hide CountVotes, Quorum.Percentage;
    var counts := CountVotes(s.store, s.round.contribution);
    Quorum.ReachedIff(q, counts.approve, counts.reject, counts.abstain, now);
    PercentageIs(counts.approve, counts.approve + counts.reject + counts.abstain);
    MoreMeans(q, counts.approve, counts.reject, counts.abstain, now);
  }

  lemma MoreMeans(q: Quorum.Requirements, a: nat, r: nat, n: nat, now: int)
    ensures var x := Quorum.Calculate(q, a, r, n, now); x.reached ==> x.approvalPercentage > x.rejectPercentage
  {
  }

  lemma VoteListed(q: Quorum.Requirements, s: State, v: Vote)
    requires Votes.Inv(s.store) && v.contribution == s.round.contribution && IdOf(v) !in s.store.votes
    ensures var t := Step(q, s, VerifiedVote(v.voter, v.kind, v.reason, v.signature, v.timestamp));
            t.store.votes == s.store.votes[IdOf(v) := v] && t.round.votes == s.round.votes + [v]
  {
    hide WithVote, Step, Votes.Inv, OnKind, Agreed;
    CastIs(q, s, true, v);
    VoteDecides(q, s, v);
  }

  /** `castVote` of a peer that is not verified, or has a vote on the contribution, changes nothing; otherwise it is
      that vote. A verified vote that is not new changes nothing either. */
  lemma CastIs(q: Quorum.Requirements, s: State, verified: bool, v: Vote)
    requires Votes.Inv(s.store) && v.contribution == s.round.contribution
    ensures v.signature == "" ==>
              Step(q, s, CastVote(verified, v.voter, v.kind, v.reason, v.timestamp))
              == if verified && IdOf(v) !in s.store.votes then WithVote(q, s, v) else s
    ensures Step(q, s, VerifiedVote(v.voter, v.kind, v.reason, v.signature, v.timestamp))
         == if IdOf(v) !in s.store.votes then WithVote(q, s, v) else s
  {
    hide Votes.Inv, CheckQuorum, TryCast, VotesFor;
    OneVoteEach(s.store, s.round.contribution);
    TryCastIff(s.store, v);
    var old' := s.store;
    assert s.(store := old') == s;
  }

  /** The clock ends a round exactly when it is voting and its time is up; `start` puts a round back to voting, or ends
      it if its time was up before. */
  lemma ClockEnds(q: Quorum.Requirements, s: State, now: int)
    ensures var due, t := s.round.startTime + q.timeout <= now, Step(q, s, Tick(now));
            t == if s.round.status == Voting && due
                 then s.(round := s.round.(status := Expired, endTime := Some(now))) else s
    ensures var due, t := s.round.startTime + q.timeout <= now, Step(q, s, Start(now));
            t == s.(round := if due then s.round.(status := Expired, endTime := Some(now))
                             else s.round.(status := Voting))
  {
  }

  /** A result from elsewhere decides a round that is pending or voting, with its own percentage and time, and is
      announced; failing and cancelling end a round at their time. The votes stay, and so does the history. */
  lemma ResultWrites(q: Quorum.Requirements, s: State, result: Decision, percentage: real, at: int)
    ensures Step(q, s, External(result, percentage, at))
         == if s.round.status == Pending || s.round.status == Voting then
              State(Round(s.round.id, s.round.contribution, Reached, s.round.startTime, Some(at), s.round.votes, true,
                          percentage, Some(result), s.round.reachedEvents + 1), s.store, s.history)
            else s
    ensures Step(q, s, Fail(at)) == s.(round := s.round.(status := Failed, endTime := Some(at)))
    ensures Step(q, s, Cancel(at)) == s.(round := s.round.(status := Failed, endTime := Some(at)))
  {
  }

  // ---------- The decision is written once ----------

  /** A decision is a result; it was announced once, and the round no longer waits for one. */
  predicate Inv(r: Round) {
    && (r.quorumReached <==> r.result.Some?)
    && r.reachedEvents == (if r.quorumReached then 1 else 0)
    && (r.quorumReached ==> r.status == Reached || r.status == Failed)
  }

  /** `start` is not called on a decided round. */
  predicate NoRestart(s: State, e: Event) { e.Start? ==> !s.round.quorumReached }

  /** A decision taken from local votes is an approval: the quorum rule already demands it. */
  lemma LocalDecisionApproves(q: Quorum.Requirements, s: State, now: int)
    requires !s.round.quorumReached && CheckQuorum(q, s, now).round.quorumReached
    ensures CheckQuorum(q, s, now).round.result == Some(Approved)
    ensures var c := CountVotes(s.store, s.round.contribution);
            c.approve + c.reject + c.abstain >= q.minPeers && c.approve > c.reject
  {
    var c := CountVotes(s.store, s.round.contribution);
    Quorum.ReachedIff(q, c.approve, c.reject, c.abstain, now);
  }

  predicate DecisionKept(before: Round, after: Round) {
    before.quorumReached ==>
      after.quorumReached && after.result == before.result && after.reachedEvents == before.reachedEvents
  }

  lemma StepKeeps(q: Quorum.Requirements, s: State, e: Event)
    requires Inv(s.round) && NoRestart(s, e)
    ensures Inv(Step(q, s, e).round) && DecisionKept(s.round, Step(q, s, e).round)
    ensures !s.round.quorumReached && Step(q, s, e).round.quorumReached && !e.External? ==>
              Step(q, s, e).round.result == Some(Approved)
  {
    hide CountVotes, TryCast, Quorum.Calculate;
    if e.CastVote? || e.VerifiedVote? {
      var signature := if e.CastVote? then "" else e.signature;
      VoteKeeps(q, s, Vote(s.round.contribution, e.voter, e.kind, e.reason, e.now, signature));
    }
  }

  lemma VoteKeeps(q: Quorum.Requirements, s: State, v: Vote)
    requires Inv(s.round)
    ensures var t := WithVote(q, s, v);
            && Inv(t.round) && DecisionKept(s.round, t.round)
            && (!s.round.quorumReached && t.round.quorumReached ==> t.round.result == Some(Approved))
  {
    hide CountVotes, TryCast;
    var t := State(s.round.(votes := s.round.votes + [v]), TryCast(s.store, v).0, s.history);
    if !t.round.quorumReached && CheckQuorum(q, t, v.timestamp).round.quorumReached {
      LocalDecisionApproves(q, t, v.timestamp);
    }
  }

  ghost predicate NeverRestarted(q: Quorum.Requirements, s: State, events: seq<Event>) {
    forall k | 0 <= k < |events| :: NoRestart(Run(q, s, events[..k]), events[k])
  }

  lemma NeverRestartedPrefix(q: Quorum.Requirements, s: State, events: seq<Event>, n: nat)
    requires n <= |events| && NeverRestarted(q, s, events)
    ensures NeverRestarted(q, s, events[..n])
  {
    forall k | 0 <= k < n ensures NoRestart(Run(q, s, events[..n][..k]), events[..n][k]) {
      assert events[..n][..k] == events[..k];
    }
  }

  lemma {:induction false} RunKeeps(q: Quorum.Requirements, s: State, events: seq<Event>)
    requires Inv(s.round) && NeverRestarted(q, s, events)
    ensures Inv(Run(q, s, events).round)
  {
    if events != [] {
      hide Step, Inv;
      NeverRestartedPrefix(q, s, events, |events| - 1);
      RunKeeps(q, s, events[..|events| - 1]);
      StepKeeps(q, Run(q, s, events[..|events| - 1]), events[|events| - 1]);
    }
  }

  /** In every run in which no decided round is started again: what is decided after the first `n` events stays
      decided, with the same result, announced exactly once. */
  lemma {:induction false} WriteOnce(q: Quorum.Requirements, s: State, events: seq<Event>, n: nat)
    requires Inv(s.round) && NeverRestarted(q, s, events) && n <= |events|
    ensures DecisionKept(Run(q, s, events[..n]).round, Run(q, s, events).round)
    ensures Run(q, s, events).round.reachedEvents <= 1
    decreases |events|
  {
    hide Step, Inv, NoRestart, NeverRestarted, Run;
    RunKeeps(q, s, events);
    ReachedOnce(Run(q, s, events).round);
    if n == |events| {
      assert events[..n] == events;
    } else {
      hide DecisionKept;
      var front, last := events[..|events| - 1], events[|events| - 1];
      NeverRestartedPrefix(q, s, events, |events| - 1);
      assert front[..n] == events[..n];
      WriteOnce(q, s, front, n);
      RunKeeps(q, s, front);
      LastStep(q, s, events);
      StepKeeps(q, Run(q, s, front), last);
      KeptTwice(Run(q, s, events[..n]).round, Run(q, s, front).round, Run(q, s, events).round);
    }
  }

  lemma LastStep(q: Quorum.Requirements, s: State, events: seq<Event>)
    requires events != [] && NeverRestarted(q, s, events)
    ensures var before, last := Run(q, s, events[..|events| - 1]), events[|events| - 1];
            Run(q, s, events) == Step(q, before, last) && NoRestart(before, last)
  {
  }

  lemma KeptTwice(a: Round, b: Round, c: Round)
    requires DecisionKept(a, b) && DecisionKept(b, c)
    ensures DecisionKept(a, c)
  {
  }

  /** In particular in every run from a new round, whatever votes and quorums there are already. */
  lemma WriteOnceFromNew(q: Quorum.Requirements, id: RoundId, c: ContributionId, now: int, store: Store,
                         history: History, events: seq<Event>, n: nat)
    requires NeverRestarted(q, State(NewRound(id, c, now), store, history), events) && n <= |events|
    ensures var s := State(NewRound(id, c, now), store, history);
            && DecisionKept(Run(q, s, events[..n]).round, Run(q, s, events).round)
            && Run(q, s, events).round.reachedEvents == (if Run(q, s, events).round.result.Some? then 1 else 0)
  {
    hide Run, NeverRestarted;
    var s := State(NewRound(id, c, now), store, history);
    FreshRound(id, c, now);
    WriteOnce(q, s, events, n);
    RunKeeps(q, s, events);
  }

  lemma ReachedOnce(r: Round)
    requires Inv(r)
    ensures r.reachedEvents <= 1
  {
  }

  lemma FreshRound(id: RoundId, c: ContributionId, now: int)
    ensures Inv(NewRound(id, c, now)) && !NewRound(id, c, now).quorumReached
  {
  }

  /** The next event of a decided round changes the result exactly when it is a different external result
      for a round that `start` has put back to voting, or that never left waiting. */
  lemma ResultOverwritten(q: Quorum.Requirements, s: State, e: Event)
    requires s.round.quorumReached && s.round.result.Some?
    ensures Step(q, s, e).round.result != s.round.result
       <==> e.External? && (s.round.status == Voting || s.round.status == Pending) && Some(e.result) != s.round.result
  {
    hide CountVotes, TryCast, Quorum.Calculate;
  }

  /** Restarting a decided round lets an external result replace the decision and announce it again. */
  lemma RestartOverwrites(q: Quorum.Requirements, s: State, now: int, percentage: real)
    requires Inv(s.round) && s.round.result == Some(Approved) && now - s.round.startTime < q.timeout
    ensures var t := Step(q, Step(q, s, Start(now)), External(Rejected, percentage, now));
            t.round.result == Some(Rejected) && t.round.reachedEvents == 2
  {
  }

  // ---------- The round ----------

  class ConsensusRound {
    var round: Round
    const voteManager: VoteManager
    const quorumManager: Quorum.QuorumManager
    const peerVerification: Peers.PeerVerification

    ghost function Value(): State
      reads this, voteManager, quorumManager
    {
      State(round, voteManager.Value(), quorumManager.quorumHistory)
    }

    constructor (round: Round, voteManager: VoteManager, quorumManager: Quorum.QuorumManager,
                 peerVerification: Peers.PeerVerification)
      ensures this.voteManager == voteManager && this.quorumManager == quorumManager
      ensures this.peerVerification == peerVerification && this.round == round
    {
      this.round, this.voteManager := round, voteManager;
      this.quorumManager, this.peerVerification := quorumManager, peerVerification;
    }

    method StartRound(now: int)
      modifies this
      ensures Value() == Step(quorumManager.requirements, old(Value()), Start(now))
    {
      round := round.(status := Voting);
      var expired := ExpireNow(now);
    }

    method ExpireNow(now: int) returns (expired: bool)
      modifies this
      ensures Value() == Step(quorumManager.requirements, old(Value()), Tick(now))
      ensures expired <==>
              old(round).status == Voting && now - old(round).startTime >= quorumManager.requirements.timeout
    {
      if round.status == Voting && now - round.startTime >= quorumManager.requirements.timeout {
        round := round.(status := Expired, endTime := Some(now));
        return true;
      }
      return false;
    }

    method CompleteRound(decision: Decision, now: int)
      modifies this
      ensures round == Complete(old(round), decision, now)
    {
      round := round.(status := Reached, result := Some(decision), endTime := Some(now));
      round := round.(reachedEvents := round.reachedEvents + 1);
    }

    method CheckQuorumNow(now: int)
      modifies this, quorumManager
      ensures Value() == CheckQuorum(quorumManager.requirements, old(Value()), now)
    {
      hide CountVotes, Set;
      var counts := voteManager.CountVotesFor(round.contribution);
      var result := Quorum.Calculate(quorumManager.requirements, counts.approve, counts.reject, counts.abstain, now);
      round := round.(approvalPercentage := result.approvalPercentage);
      if result.reached && !round.quorumReached {
        round := round.(quorumReached := true);
        quorumManager.RecordQuorum(round.contribution, result);
        CompleteRound(if result.approvalPercentage > result.rejectPercentage then Approved else Rejected, now);
      }
    }

    method Record(v: Vote) returns (result: CastResult)
      requires voteManager.Valid() && v.contribution == round.contribution
      modifies this, voteManager, quorumManager
      ensures voteManager.Valid() && Value() == WithVote(quorumManager.requirements, old(Value()), v)
      ensures result == TryCast(old(voteManager.Value()), v).1
    {
      hide CheckQuorum, Votes.Add, Votes.Inv;
      result := voteManager.TryCastVote(v.contribution, v.voter, v.kind, v.reason, v.timestamp, v.signature);
      if result.Accepted? && !result.duplicate {
        round := round.(votes := round.votes + [result.vote]);
        CheckQuorumNow(v.timestamp);
      }
    }

    /** The verdict on the voter is that of the tables at the time of the call. */
    method CastVoteBy(voter: PeerId, kind: Kind, reason: Option<string>, now: int) returns (accepted: bool)
      requires voteManager.Valid()
      modifies this, voteManager, quorumManager
      ensures voteManager.Valid()
      ensures var verified := Peers.Verified(peerVerification.Value(), voter);
              && Value() == Step(quorumManager.requirements, old(Value()), CastVote(verified, voter, kind, reason, now))
              && (accepted <==> verified && VoteId(old(round).contribution, voter) !in old(voteManager.votes))
    {
      hide WithVote, VotesFor, Votes.Add;
      var verified := peerVerification.VerifyPeer(voter);
      if !verified {
        return false;
      }
      var voted := voteManager.HasVoted(round.contribution, voter);
      if voted {
        return false;
      }
      var result := Record(Vote(round.contribution, voter, kind, reason, now, ""));
      return result.Accepted? && !result.duplicate;
    }

    method RecordVerifiedVote(voter: PeerId, kind: Kind, reason: Option<string>, signature: string, now: int)
      returns (accepted: bool)
      requires voteManager.Valid()
      modifies this, voteManager, quorumManager
      ensures voteManager.Valid()
      ensures Value() == Step(quorumManager.requirements, old(Value()),
                              VerifiedVote(voter, kind, reason, signature, now))
      ensures var v := Vote(old(round).contribution, voter, kind, reason, now, signature);
              accepted <==> TryCast(old(voteManager.Value()), v).1.Accepted?
    {
      hide WithVote, TryCast;
      var result := Record(Vote(round.contribution, voter, kind, reason, now, signature));
      return result.Accepted?;
    }

    method RecordExternalResult(result: Decision, approvalPercentage: real, decidedAt: int) returns (agreed: bool)
      modifies this
      ensures Value() == Step(quorumManager.requirements, old(Value()), External(result, approvalPercentage, decidedAt))
      ensures agreed <==>
              round.status == Reached && round.result == Some(result) && round.approvalPercentage == approvalPercentage
    {
      if round.status == Reached {
        return round.result == Some(result) && round.approvalPercentage == approvalPercentage;
      }
      if round.status == Failed || round.status == Expired {
        return false;
      }
      round := round.(status := Reached, result := Some(result), quorumReached := true,
                      approvalPercentage := approvalPercentage, endTime := Some(decidedAt),
                      reachedEvents := round.reachedEvents + 1);
      return true;
    }

    method FailRound(now: int)
      modifies this
      ensures Value() == Step(quorumManager.requirements, old(Value()), Fail(now))
    {
      round := round.(status := Failed, endTime := Some(now));
    }

    method CancelRound(now: int)
      modifies this
      ensures Value() == Step(quorumManager.requirements, old(Value()), Cancel(now))
    {
      round := round.(status := Failed, endTime := Some(now));
    }
  }
}
