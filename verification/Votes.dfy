/** The vote store of src/consensus/VoteManager.ts: one map of votes and two indexes over it. */
module Votes {
  import opened Prelude
  import opened Buckets

  type PeerId = string
  type ContributionId = string

  datatype Kind = Approve | Reject | Abstain

  datatype Vote = Vote(
    contribution: ContributionId, voter: PeerId, kind: Kind, reason: Option<string>, timestamp: int, signature: string)

  /** The truncated hash of contribution and voter, taken as the pair it is computed from. */
  datatype VoteId = VoteId(contribution: ContributionId, voter: PeerId)

  datatype CastResult =
    | Accepted(vote: Vote, duplicate: bool)
    | Conflict(existing: Vote)

  /** `votes` with its iteration order, and the two indexes. */
  datatype Store = Store(
    votes: map<VoteId, Vote>,
    order: seq<VoteId>,
    byContribution: map<ContributionId, seq<VoteId>>,
    byVoter: map<PeerId, seq<VoteId>>)

  datatype Counts = Counts(total: nat, approve: nat, reject: nat, abstain: nat)

  const Empty: Store := Store(map[], [], map[], map[])

  function ContributionOf(id: VoteId): ContributionId { id.contribution }

  function VoterOf(id: VoteId): PeerId { id.voter }

  function IdOf(v: Vote): VoteId { VoteId(v.contribution, v.voter) }

  // ---------- Operations ----------

  function SameBallot(v: Vote, kind: Kind, reason: Option<string>): bool { v.kind == kind && v.reason == reason }

  function Add(s: Store, v: Vote): Store {
    var id := IdOf(v);
    Store(s.votes[id := v],
          if id in s.votes then s.order else s.order + [id],
          Insert(s.byContribution, v.contribution, id),
          Insert(s.byVoter, v.voter, id))
  }

  function TryCast(s: Store, v: Vote): (Store, CastResult) {
    var id := IdOf(v);
    if id in s.votes then
      (s, if SameBallot(s.votes[id], v.kind, v.reason) then Accepted(s.votes[id], true) else Conflict(s.votes[id]))
    else (Add(s, v), Accepted(v, false))
  }

  function RemoveVote(s: Store, id: VoteId): Store {
    if id !in s.votes then s
    else
      var v := s.votes[id];
      Store(s.votes - {id}, Deleted(s.order, id), Remove(s.byContribution, v.contribution, id),
            Remove(s.byVoter, v.voter, id))
  }

  function RemoveEach(s: Store, ids: seq<VoteId>): Store
    decreases |ids|
  {
    if ids == [] then s else RemoveEach(RemoveVote(s, ids[0]), ids[1..])
  }

  function RemoveForContribution(s: Store, c: ContributionId): Store {
    if c !in s.byContribution then s
    else
      var t := RemoveEach(s, s.byContribution[c]);
      t.(byContribution := t.byContribution - {c})
  }

  function RemoveForVoter(s: Store, p: PeerId): Store {
    if p !in s.byVoter then s
    else
      var t := RemoveEach(s, s.byVoter[p]);
      t.(byVoter := t.byVoter - {p})
  }

  /** A stored vote is skipped when it contradicts one already restored. */
  function RestoreOne(s: Store, v: Vote): Store {
    var id := IdOf(v);
    if id in s.votes && !SameBallot(s.votes[id], v.kind, v.reason) then s else Add(s, v)
  }

  function Restore(vs: seq<Vote>): Store {
    if vs == [] then Empty else RestoreOne(Restore(vs[..|vs| - 1]), vs[|vs| - 1])
  }

  /** Votes of the ids that are present, in the order of the ids. */
  function Lookup(votes: map<VoteId, Vote>, ids: seq<VoteId>): seq<Vote> {
    if ids == [] then []
    else Lookup(votes, ids[..|ids| - 1]) + (if ids[|ids| - 1] in votes then [votes[ids[|ids| - 1]]] else [])
  }

  function AllVotes(s: Store): seq<Vote> { Lookup(s.votes, s.order) }

  function VotesFor(s: Store, c: ContributionId): seq<Vote> { Lookup(s.votes, Bucket(s.byContribution, c)) }

  function CountKind(vs: seq<Vote>, kind: Kind): nat {
    if vs == [] then 0 else CountKind(vs[..|vs| - 1], kind) + (if vs[|vs| - 1].kind == kind then 1 else 0)
  }

  function CountVotes(s: Store, c: ContributionId): Counts {
    var vs := VotesFor(s, c);
    Counts(|vs|, CountKind(vs, Approve), CountKind(vs, Reject), CountKind(vs, Abstain))
  }

  // ---------- The indexes mirror the map ----------

  /** Both indexes are the vote map grouped, in its own order; an id is the pair its vote names. */
  ghost predicate Inv(s: Store) {
    && NoDuplicates(s.order) && (forall id :: id in s.order <==> id in s.votes)
    && (forall id | id in s.votes :: IdOf(s.votes[id]) == id)
    && Mirrors(s.byContribution, s.order, ContributionOf)
    && Mirrors(s.byVoter, s.order, VoterOf)
  }

  lemma AddKeeps(s: Store, v: Vote)
    requires Inv(s)
    ensures Inv(Add(s, v))
  {
    hide Mirrors, Insert;
    var id := IdOf(v);
    if id in s.votes {
      ReinsertMirrors(s.byContribution, s.order, ContributionOf, id);
      ReinsertMirrors(s.byVoter, s.order, VoterOf, id);
    } else {
      InsertMirrors(s.byContribution, s.order, ContributionOf, id);
      InsertMirrors(s.byVoter, s.order, VoterOf, id);
    }
  }

  lemma RemoveKeeps(s: Store, id: VoteId)
    requires Inv(s)
    ensures Inv(RemoveVote(s, id)) && RemoveVote(s, id).votes == s.votes - {id}
    ensures RemoveVote(s, id).order == Deleted(s.order, id)
  {
    hide Mirrors, Remove, Deleted, NoDuplicates;
    if id in s.votes {
      DeletedIs(s.order, id);
      RemoveMirrors(s.byContribution, s.order, ContributionOf, id);
      RemoveMirrors(s.byVoter, s.order, VoterOf, id);
    } else {
      DeletedAbsent(s.order, id);
    }
  }

  ghost function IdSet(ids: seq<VoteId>): set<VoteId> { set id | id in ids }

  lemma {:induction false} RemoveEachKeeps(s: Store, ids: seq<VoteId>)
    requires Inv(s)
    ensures Inv(RemoveEach(s, ids)) && RemoveEach(s, ids).votes == s.votes - IdSet(ids)
    decreases |ids|
  {
    hide Inv, RemoveVote;
    if ids != [] {
      RemoveKeeps(s, ids[0]);
      RemoveEachKeeps(RemoveVote(s, ids[0]), ids[1..]);
      assert ids == [ids[0]] + ids[1..];
      assert IdSet(ids) == {ids[0]} + IdSet(ids[1..]);
    }
  }

  lemma BucketIds(s: Store, c: ContributionId)
    requires Inv(s)
    ensures forall id :: id in Bucket(s.byContribution, c) <==> id in s.votes && id.contribution == c
    ensures NoDuplicates(Bucket(s.byContribution, c))
  {
    assert Bucket(s.byContribution, c) == Restrict(s.order, ContributionOf, c);
    RestrictMembers(s.order, ContributionOf, c);
    RestrictDistinct(s.order, ContributionOf, c);
  }

  lemma VoterIds(s: Store, p: PeerId)
    requires Inv(s)
    ensures forall id :: id in Bucket(s.byVoter, p) <==> id in s.votes && id.voter == p
    ensures NoDuplicates(Bucket(s.byVoter, p))
  {
    assert Bucket(s.byVoter, p) == Restrict(s.order, VoterOf, p);
    RestrictMembers(s.order, VoterOf, p);
    RestrictDistinct(s.order, VoterOf, p);
  }

  lemma HeadDeleted(q: seq<VoteId>)
    requires q != [] && NoDuplicates(q)
    ensures Deleted(q, q[0]) == q[1..]
  {
    assert q[0] !in q[1..];
    DeletedAbsent(q[1..], q[0]);
  }

  /** Removing the first vote of a bucket leaves the rest of the bucket, in order. */
  lemma ContributionHead(s: Store, c: ContributionId)
    requires Inv(s) && c in s.byContribution && s.byContribution[c] != []
    ensures var q := s.byContribution[c];
            q[0] in s.votes && RemoveVote(s, q[0]).byContribution == s.byContribution[c := q[1..]]
  {
    var q := s.byContribution[c];
    BucketIds(s, c);
    assert q[0] in Bucket(s.byContribution, c);
    HeadDeleted(q);
  }

  lemma VoterHead(s: Store, p: PeerId)
    requires Inv(s) && p in s.byVoter && s.byVoter[p] != []
    ensures var q := s.byVoter[p];
            q[0] in s.votes && RemoveVote(s, q[0]).byVoter == s.byVoter[p := q[1..]]
  {
    var q := s.byVoter[p];
    VoterIds(s, p);
    assert q[0] in Bucket(s.byVoter, p);
    HeadDeleted(q);
  }

  lemma GroupGone<K(!new)>(order: seq<VoteId>, owner: VoteId -> K, k: K, left: set<VoteId>)
    requires (forall id <- order :: id in left) && forall id <- left :: owner(id) != k
    ensures Restrict(order, owner, k) == []
  {
    RestrictNone(order, owner, k);
  }

  lemma MirrorAt<K(!new)>(m: map<K, seq<VoteId>>, order: seq<VoteId>, owner: VoteId -> K, k: K)
    requires Mirrors(m, order, owner)
    ensures Bucket(m, k) == Restrict(order, owner, k)
  {
  }

  lemma DropEmpty<K(!new)>(m: map<K, seq<VoteId>>, order: seq<VoteId>, owner: VoteId -> K, k: K)
    requires Mirrors(m, order, owner) && Bucket(m, k) == []
    ensures Mirrors(m - {k}, order, owner)
  {
    forall j ensures Bucket(m - {k}, j) == Restrict(order, owner, j) {
      assert Bucket(m, j) == Restrict(order, owner, j);
    }
  }

  /** All votes on the contribution go, and no others; both indexes follow. */
  lemma RemoveForContributionKeeps(s: Store, c: ContributionId)
    requires Inv(s)
    ensures var t := RemoveForContribution(s, c);
            Inv(t) && t.votes == map id | id in s.votes && id.contribution != c :: s.votes[id]
  {
    hide RemoveEach, Mirrors;
    BucketIds(s, c);
    if c in s.byContribution {
      var t := RemoveEach(s, s.byContribution[c]);
      RemoveEachKeeps(s, s.byContribution[c]);
      GroupGone(t.order, ContributionOf, c, t.votes.Keys);
      MirrorAt(t.byContribution, t.order, ContributionOf, c);
      DropEmpty(t.byContribution, t.order, ContributionOf, c);
    }
  }

  lemma RemoveForVoterKeeps(s: Store, p: PeerId)
    requires Inv(s)
    ensures var t := RemoveForVoter(s, p);
            Inv(t) && t.votes == map id | id in s.votes && id.voter != p :: s.votes[id]
  {
    hide RemoveEach, Mirrors;
    VoterIds(s, p);
    if p in s.byVoter {
      var t := RemoveEach(s, s.byVoter[p]);
      RemoveEachKeeps(s, s.byVoter[p]);
      GroupGone(t.order, VoterOf, p, t.votes.Keys);
      MirrorAt(t.byVoter, t.order, VoterOf, p);
      DropEmpty(t.byVoter, t.order, VoterOf, p);
    }
  }

  lemma {:induction false} RestoreKeeps(vs: seq<Vote>)
    ensures Inv(Restore(vs))
  {
    hide Mirrors, Add;
    if vs == [] {
      EmptyInv();
    } else {
      RestoreKeeps(vs[..|vs| - 1]);
      AddKeeps(Restore(vs[..|vs| - 1]), vs[|vs| - 1]);
    }
  }

  lemma EmptyInv()
    ensures Inv(Empty)
  {
  }

  // ---------- Counting ----------

  /** The votes on `c` in a full scan. */
  function ScanFor(vs: seq<Vote>, c: ContributionId): seq<Vote> {
    if vs == [] then []
    else ScanFor(vs[..|vs| - 1], c) + (if vs[|vs| - 1].contribution == c then [vs[|vs| - 1]] else [])
  }

  lemma ScanAppend(vs: seq<Vote>, v: Vote, c: ContributionId)
    ensures ScanFor(vs + [v], c) == ScanFor(vs, c) + (if v.contribution == c then [v] else [])
  {
    assert (vs + [v])[..|vs|] == vs;
  }

  lemma LookupAppend(votes: map<VoteId, Vote>, ids: seq<VoteId>, id: VoteId)
    ensures Lookup(votes, ids + [id]) == Lookup(votes, ids) + (if id in votes then [votes[id]] else [])
  {
    assert (ids + [id])[..|ids|] == ids;
  }

  lemma {:induction false} LookupScan(votes: map<VoteId, Vote>, order: seq<VoteId>, c: ContributionId)
    requires forall id <- order :: id in votes && IdOf(votes[id]) == id
    ensures Lookup(votes, Restrict(order, ContributionOf, c)) == ScanFor(Lookup(votes, order), c)
  {
    if order != [] {
      var front, last := order[..|order| - 1], order[|order| - 1];
      LookupScan(votes, front, c);
      assert Lookup(votes, order) == Lookup(votes, front) + [votes[last]];
      ScanAppend(Lookup(votes, front), votes[last], c);
      if last.contribution == c {
        LookupAppend(votes, Restrict(front, ContributionOf, c), last);
      } else {
        assert Restrict(order, ContributionOf, c) == Restrict(front, ContributionOf, c);
      }
    }
  }

  /** Counting through the index counts exactly what a scan of all votes finds. */
  lemma CountIsScan(s: Store, c: ContributionId)
    requires Inv(s)
    ensures var vs := ScanFor(AllVotes(s), c);
            CountVotes(s, c) == Counts(|vs|, CountKind(vs, Approve), CountKind(vs, Reject), CountKind(vs, Abstain))
    ensures CountVotes(s, c).total == CountVotes(s, c).approve + CountVotes(s, c).reject + CountVotes(s, c).abstain
  {
    LookupScan(s.votes, s.order, c);
    assert Bucket(s.byContribution, c) == Restrict(s.order, ContributionOf, c);
    KindsAdd(VotesFor(s, c));
  }

  lemma {:induction false} KindsAdd(vs: seq<Vote>)
    ensures |vs| == CountKind(vs, Approve) + CountKind(vs, Reject) + CountKind(vs, Abstain)
  {
    if vs != [] {
      KindsAdd(vs[..|vs| - 1]);
    }
  }

  /** The stored votes of one kind on the contribution. */
  ghost function OnKind(votes: map<VoteId, Vote>, c: ContributionId, kind: Kind): set<VoteId> {
    set id | id in votes && id.contribution == c && votes[id].kind == kind
  }

  ghost function Among(votes: map<VoteId, Vote>, ids: seq<VoteId>, kind: Kind): set<VoteId> {
    set id | id in ids && id in votes && votes[id].kind == kind
  }

  lemma AmongMore(votes: map<VoteId, Vote>, ids: seq<VoteId>, id: VoteId, kind: Kind)
    requires id in votes && id !in ids
    ensures |Among(votes, ids + [id], kind)| == |Among(votes, ids, kind)| + (if votes[id].kind == kind then 1 else 0)
  {
    var was := Among(votes, ids, kind);
    assert Among(votes, ids + [id], kind) == was + (if votes[id].kind == kind then {id} else {});
  }

  lemma {:induction false} CountIds(votes: map<VoteId, Vote>, ids: seq<VoteId>, kind: Kind)
    requires NoDuplicates(ids) && forall id <- ids :: id in votes
    ensures CountKind(Lookup(votes, ids), kind) == |Among(votes, ids, kind)|
  {
    if ids != [] {
      var front, last := ids[..|ids| - 1], ids[|ids| - 1];
      FrontDistinct(ids);
      assert ids == front + [last] && last in ids;
      CountIds(votes, front, kind);
      hide Lookup, CountKind, NoDuplicates, Among;
      LookupAppend(votes, front, last);
      CountAppend(Lookup(votes, front), votes[last], kind);
      AmongMore(votes, front, last, kind);
    } else {
      assert Among(votes, ids, kind) == {};
    }
  }

  lemma CountAppend(vs: seq<Vote>, v: Vote, kind: Kind)
    ensures CountKind(vs + [v], kind) == CountKind(vs, kind) + (if v.kind == kind then 1 else 0)
  {
    assert (vs + [v])[..|vs|] == vs;
  }

  /** The counts on a contribution are the numbers of stored votes of each kind on it. */
  lemma CountsAre(s: Store, c: ContributionId)
    requires Inv(s)
    ensures var counts := CountVotes(s, c);
            && counts.approve == |OnKind(s.votes, c, Approve)| && counts.reject == |OnKind(s.votes, c, Reject)|
            && counts.abstain == |OnKind(s.votes, c, Abstain)|
            && counts.total == counts.approve + counts.reject + counts.abstain
  {
    var ids := Bucket(s.byContribution, c);
    BucketIds(s, c);
    CountIds(s.votes, ids, Approve);
    CountIds(s.votes, ids, Reject);
    CountIds(s.votes, ids, Abstain);
    SameIds(s.votes, ids, c, Approve);
    SameIds(s.votes, ids, c, Reject);
    SameIds(s.votes, ids, c, Abstain);
    hide Inv, Lookup, CountKind;
    CountIsScan(s, c);
  }

  lemma SameIds(votes: map<VoteId, Vote>, ids: seq<VoteId>, c: ContributionId, kind: Kind)
    requires forall id :: id in ids <==> id in votes && id.contribution == c
    ensures Among(votes, ids, kind) == OnKind(votes, c, kind)
  {
  }

  /** A ballot is new exactly when its voter has no vote on the contribution. An old one with the same kind and reason
      is accepted again without effect, any other is a conflict. */
  lemma TryCastIff(s: Store, v: Vote)
    ensures var (t, r) := TryCast(s, v);
            var id := VoteId(v.contribution, v.voter);
            && (id !in s.votes ==> r == Accepted(v, false) && t.votes == s.votes[id := v])
            && (id in s.votes && s.votes[id].kind == v.kind && s.votes[id].reason == v.reason ==>
                  r == Accepted(s.votes[id], true) && t == s)
            && (id in s.votes && (s.votes[id].kind != v.kind || s.votes[id].reason != v.reason) ==>
                  r == Conflict(s.votes[id]) && t == s)
  {
  }

  /** A stored vote that is restored replaces one with the same kind and reason, and is skipped where its voter has
      another ballot on the contribution. */
  lemma RestoreOneIff(s: Store, v: Vote)
    ensures var t, id := RestoreOne(s, v), VoteId(v.contribution, v.voter);
            && (id in s.votes && (s.votes[id].kind != v.kind || s.votes[id].reason != v.reason) ==> t == s)
            && (id in s.votes && s.votes[id].kind == v.kind && s.votes[id].reason == v.reason ==>
                  t.votes == s.votes[id := v] && t.order == s.order)
            && (id !in s.votes ==> t.votes == s.votes[id := v] && t.order == s.order + [id])
  {
  }

  lemma {:induction false} LookupIs(votes: map<VoteId, Vote>, ids: seq<VoteId>)
    requires forall id <- ids :: id in votes
    ensures |Lookup(votes, ids)| == |ids| && forall i | 0 <= i < |ids| :: Lookup(votes, ids)[i] == votes[ids[i]]
  {
    if ids != [] {
      LookupIs(votes, ids[..|ids| - 1]);
    }
  }

  /** One vote per voter and contribution, and the list of a contribution names each of its voters once. */
  lemma OneVoteEach(s: Store, c: ContributionId)
    requires Inv(s)
    ensures var vs := VotesFor(s, c);
            && (forall i | 0 <= i < |vs| :: vs[i].contribution == c)
            && (forall i, j | 0 <= i < j < |vs| :: vs[i].voter != vs[j].voter)
            && (forall p :: VoteId(c, p) in s.votes <==> exists v <- vs :: v.voter == p)
  {
    hide Inv, Lookup, Bucket;
    BucketIds(s, c);
    IdsMatch(s);
    var ids := Bucket(s.byContribution, c);
    LookupIs(s.votes, ids);
    var vs := VotesFor(s, c);
    assert forall i | 0 <= i < |ids| :: ids[i] in ids;
    forall p ensures VoteId(c, p) in s.votes <==> exists v <- vs :: v.voter == p {
      if VoteId(c, p) in s.votes {
        var i :| 0 <= i < |ids| && ids[i] == VoteId(c, p);
        assert vs[i] in vs && vs[i].voter == p;
      }
    }
  }

  lemma IdsMatch(s: Store)
    requires Inv(s)
    ensures forall id | id in s.votes :: IdOf(s.votes[id]) == id
  {
  }

  // ---------- Snapshot and restore ----------

  /** The same store up to buckets that are empty in one and missing in the other. */
  ghost predicate SameStore(s: Store, t: Store) {
    && s.votes == t.votes && s.order == t.order
    && (forall c :: Bucket(s.byContribution, c) == Bucket(t.byContribution, c))
    && (forall p :: Bucket(s.byVoter, p) == Bucket(t.byVoter, p))
  }

  /** The store has these votes, in this order, and no others. */
  ghost predicate HoldsVotes(s: Store, votes: map<VoteId, Vote>, order: seq<VoteId>) {
    && s.order == order && (forall id :: id in s.votes <==> id in order)
    && forall id <- order :: id in votes && s.votes[id] == votes[id]
  }

  lemma {:induction false} RestoreVotesOf(votes: map<VoteId, Vote>, order: seq<VoteId>)
    requires NoDuplicates(order) && forall id <- order :: id in votes && IdOf(votes[id]) == id
    ensures HoldsVotes(Restore(Lookup(votes, order)), votes, order)
  {
    if order != [] {
      var front, last := order[..|order| - 1], order[|order| - 1];
      assert order == front + [last];
      FrontDistinct(order);
      RestoreVotesOf(votes, front);
      hide Restore, Lookup, HoldsVotes, NoDuplicates, IdOf;
      LookupAppend(votes, front, last);
      RestoreOneMore(Lookup(votes, front), votes, front, last);
    } else {
      NothingToRestore(votes);
    }
  }

  lemma FrontDistinct(order: seq<VoteId>)
    requires order != [] && NoDuplicates(order)
    ensures var front, last := order[..|order| - 1], order[|order| - 1];
            NoDuplicates(front) && last !in front && forall id <- front :: id in order
  {
  }

  lemma NothingToRestore(votes: map<VoteId, Vote>)
    ensures HoldsVotes(Restore(Lookup(votes, [])), votes, [])
  {
  }

  lemma RestoreOneMore(vs: seq<Vote>, votes: map<VoteId, Vote>, order: seq<VoteId>, id: VoteId)
    requires HoldsVotes(Restore(vs), votes, order) && id !in order && id in votes && IdOf(votes[id]) == id
    ensures HoldsVotes(Restore(vs + [votes[id]]), votes, order + [id])
  {
    hide Restore, IdOf;
    RestoreNew(vs, votes[id]);
  }

  lemma RestoreNew(vs: seq<Vote>, v: Vote)
    requires IdOf(v) !in Restore(vs).votes
    ensures var s, t := Restore(vs), Restore(vs + [v]);
            t.order == s.order + [IdOf(v)] && t.votes == s.votes[IdOf(v) := v]
  {
    hide Insert;
    RestoreAppend(vs, v);
  }

  lemma RestoreAppend(vs: seq<Vote>, v: Vote)
    ensures Restore(vs + [v]) == RestoreOne(Restore(vs), v)
  {
    assert (vs + [v])[..|vs|] == vs;
  }

  lemma AllVotesAre(s: Store)
    ensures AllVotes(s) == Lookup(s.votes, s.order)
  {
  }

  /** Restoring the votes of a snapshot rebuilds the store, iteration order and indexes included. */
  lemma RestoredStore(s: Store)
    requires Inv(s)
    ensures SameStore(Restore(AllVotes(s)), s)
  {
    hide Restore, Restrict, AllVotes, Mirrors;
    var t := Restore(AllVotes(s));
    assert t == Restore(Lookup(s.votes, s.order)) by { AllVotesAre(s); }
    RestoreVotesOf(s.votes, s.order);
    RestoreKeeps(AllVotes(s));
    assert t.votes == s.votes;
    forall c ensures Bucket(t.byContribution, c) == Bucket(s.byContribution, c) {
      MirrorAt(t.byContribution, s.order, ContributionOf, c);
      MirrorAt(s.byContribution, s.order, ContributionOf, c);
    }
    forall p ensures Bucket(t.byVoter, p) == Bucket(s.byVoter, p) {
      MirrorAt(t.byVoter, s.order, VoterOf, p);
      MirrorAt(s.byVoter, s.order, VoterOf, p);
    }
  }

  // ---------- The manager ----------

  class VoteManager {
    var votes: map<VoteId, Vote>
    var order: seq<VoteId>
    var votesByContribution: map<ContributionId, seq<VoteId>>
    var votesByVoter: map<PeerId, seq<VoteId>>

    ghost function Value(): Store
      reads this
    {
      Store(votes, order, votesByContribution, votesByVoter)
    }

    ghost predicate Valid()
      reads this
    {
      Inv(Value())
    }

    constructor ()
      ensures Value() == Empty && Valid()
    {
      votes, order, votesByContribution, votesByVoter := map[], [], map[], map[];
      new;
      EmptyInv();
    }

    /** Puts a vote into the map and both indexes, making the buckets on first use. */
    method Record(v: Vote)
      requires Valid()
      modifies this
      ensures Valid() && Value() == Add(old(Value()), v)
    {
      hide Inv, Insert;
      ghost var before := Value();
      AddKeeps(before, v);
      var id := IdOf(v);
      if id !in votes {
        order := order + [id];
      }
      votes := votes[id := v];
      votesByContribution := AddToBucket(votesByContribution, v.contribution, id);
      votesByVoter := AddToBucket(votesByVoter, v.voter, id);
      assert Value() == Add(before, v);
    }

    method TryCastVote(contribution: ContributionId, voter: PeerId, kind: Kind, reason: Option<string>, now: int,
                       signature: string)
      returns (result: CastResult)
      requires Valid()
      modifies this
      ensures Valid()
      ensures (Value(), result) == TryCast(old(Value()), Vote(contribution, voter, kind, reason, now, signature))
    {
      var id := VoteId(contribution, voter);
      if id in votes {
        var existing := votes[id];
        if existing.kind == kind && existing.reason == reason {
          return Accepted(existing, true);
        }
        return Conflict(existing);
      }
      var v := Vote(contribution, voter, kind, reason, now, signature);
      Record(v);
      return Accepted(v, false);
    }

    method Delete(id: VoteId) returns (removed: bool)
      requires Valid()
      modifies this
      ensures Valid() && Value() == RemoveVote(old(Value()), id)
      ensures removed <==> id in old(votes)
    {
      RemoveKeeps(Value(), id);
      hide Inv;
      if id !in votes {
        return false;
      }
      var v := votes[id];
      if v.contribution in votesByContribution {
        votesByContribution := votesByContribution[v.contribution := Deleted(votesByContribution[v.contribution], id)];
      }
      if v.voter in votesByVoter {
        votesByVoter := votesByVoter[v.voter := Deleted(votesByVoter[v.voter], id)];
      }
      votes, order := votes - {id}, Deleted(order, id);
      return true;
    }

    /** The loop walks the bucket itself: each removal deletes the visited id from it, and the next id moves up to
        the place of the deleted one. */
    method RemoveVotesForContribution(c: ContributionId) returns (count: nat)
      requires Valid()
      modifies this
      ensures Valid() && Value() == RemoveForContribution(old(Value()), c)
      ensures count == |Bucket(old(votesByContribution), c)|
    {
      RemoveForContributionKeeps(Value(), c);
      if c !in votesByContribution {
        return 0;
      }
      hide Inv, RemoveVote;
      ghost var all := RemoveEach(Value(), votesByContribution[c]);
      var at := 0;
      count := 0;
      while at < |votesByContribution[c]|
        invariant at == 0 && c in votesByContribution && Valid() && RemoveEach(Value(), votesByContribution[c]) == all
        invariant count + |votesByContribution[c]| == |Bucket(old(votesByContribution), c)|
        decreases |votesByContribution[c]|
      {
        ContributionHead(Value(), c);
        var removed := Delete(votesByContribution[c][at]);
        if removed {
          count := count + 1;
        } else {
          at := at + 1;
        }
      }
      votesByContribution := votesByContribution - {c};
    }

    method RemoveVotesByVoter(p: PeerId) returns (count: nat)
      requires Valid()
      modifies this
      ensures Valid() && Value() == RemoveForVoter(old(Value()), p)
      ensures count == |Bucket(old(votesByVoter), p)|
    {
      RemoveForVoterKeeps(Value(), p);
      if p !in votesByVoter {
        return 0;
      }
      hide Inv, RemoveVote;
      ghost var all := RemoveEach(Value(), votesByVoter[p]);
      var at := 0;
      count := 0;
      while at < |votesByVoter[p]|
        invariant at == 0 && p in votesByVoter && Valid() && RemoveEach(Value(), votesByVoter[p]) == all
        invariant count + |votesByVoter[p]| == |Bucket(old(votesByVoter), p)|
        decreases |votesByVoter[p]|
      {
        VoterHead(Value(), p);
        var removed := Delete(votesByVoter[p][at]);
        if removed {
          count := count + 1;
        } else {
          at := at + 1;
        }
      }
      votesByVoter := votesByVoter - {p};
    }

    method GetVotesForContribution(c: ContributionId) returns (vs: seq<Vote>)
      ensures vs == VotesFor(Value(), c)
    {
      vs := [];
      if c !in votesByContribution {
        return;
      }
      var ids := votesByContribution[c];
      for i := 0 to |ids|
        invariant vs == Lookup(votes, ids[..i])
      {
        LookupAppend(votes, ids[..i], ids[i]);
        assert ids[..i + 1] == ids[..i] + [ids[i]];
        if ids[i] in votes {
          vs := vs + [votes[ids[i]]];
        }
      }
      assert ids[..|ids|] == ids;
    }

    method CountVotesFor(c: ContributionId) returns (counts: Counts)
      ensures counts == CountVotes(Value(), c)
    {
      var vs := GetVotesForContribution(c);
      counts := Counts(|vs|, CountKind(vs, Approve), CountKind(vs, Reject), CountKind(vs, Abstain));
    }

    /** Scans the votes on the contribution; by the index that is a lookup of one id. */
    method HasVoted(c: ContributionId, voter: PeerId) returns (voted: bool)
      requires Valid()
      ensures voted <==> VoteId(c, voter) in votes
      ensures voted <==> exists v <- VotesFor(Value(), c) :: v.voter == voter
    {
      OneVoteEach(Value(), c);
      hide Inv;
      var vs := GetVotesForContribution(c);
      voted := exists v <- vs :: v.voter == voter;
    }

    method GetAllVotes() returns (vs: seq<Vote>)
      requires Valid()
      ensures vs == AllVotes(Value())
    {
      vs := [];
      for i := 0 to |order|
        invariant vs == Lookup(votes, order[..i])
      {
        LookupAppend(votes, order[..i], order[i]);
        assert order[..i + 1] == order[..i] + [order[i]];
        assert order[i] in order;
        vs := vs + [votes[order[i]]];
      }
      assert order[..|order|] == order;
    }

    method ClearAll()
      modifies this
      ensures Valid() && Value() == Empty
    {
      votes, order, votesByContribution, votesByVoter := map[], [], map[], map[];
      EmptyInv();
    }

    method RestoreVotes(vs: seq<Vote>)
      modifies this
      ensures Valid() && Value() == Restore(vs)
    {
      ClearAll();
      hide Inv, Add;
      for i := 0 to |vs|
        invariant Valid() && Value() == Restore(vs[..i])
      {
        assert vs[..i + 1][..i] == vs[..i];
        var id := IdOf(vs[i]);
        if id !in votes || (votes[id].kind == vs[i].kind && votes[id].reason == vs[i].reason) {
          Record(vs[i]);
        }
      }
      assert vs[..|vs|] == vs;
    }
  }
}