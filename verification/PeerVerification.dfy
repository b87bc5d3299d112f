/** Which peers may vote: src/consensus/PeerVerification.ts. */
module Peers {
  type PeerId = string

  /** The peers with a fingerprint, and those marked suspicious and banned. */
  datatype Tables = Tables(fingerprints: set<PeerId>, suspicious: set<PeerId>, banned: set<PeerId>)

  datatype FraudType = Sybil | Manipulation | OtherFraud

  datatype Event =
    | Register(peer: PeerId)
    | RemoveFingerprint(peer: PeerId)
    | ReportFraud(peer: PeerId, fraud: FraudType)
    | MarkSuspicious(peer: PeerId)
    | UnmarkSuspicious(peer: PeerId)
    | MarkBanned(peer: PeerId)
    | Unban(peer: PeerId)

  const Empty: Tables := Tables({}, {}, {})

  function Step(t: Tables, e: Event): Tables {
    match e
    case Register(p) => t.(fingerprints := t.fingerprints + {p})
    case RemoveFingerprint(p) => t.(fingerprints := t.fingerprints - {p})
    case ReportFraud(p, fraud) =>
      t.(suspicious := if fraud.OtherFraud? then t.suspicious else t.suspicious + {p},
         banned := if fraud.Sybil? then t.banned + {p} else t.banned)
    case MarkSuspicious(p) => t.(suspicious := t.suspicious + {p})
    case UnmarkSuspicious(p) => t.(suspicious := t.suspicious - {p})
    case MarkBanned(p) => t.(banned := t.banned + {p})
    case Unban(p) => t.(banned := t.banned - {p})
  }

  /** The verdict; its confidence is not used in casting a vote. */
  predicate Verified(t: Tables, p: PeerId) { p in t.fingerprints && p !in t.banned && p !in t.suspicious }

  /** After a step a peer is verified exactly if it has a fingerprint and no mark, counting what the step gave or took:
      a registration gives the fingerprint and no more, a Sybil report bans and marks, a manipulation report marks. */
  lemma VerdictAfter(t: Tables, e: Event, p: PeerId)
    ensures var fingerprint := e == Register(p) || (p in t.fingerprints && e != RemoveFingerprint(p));
            var banned := e == MarkBanned(p) || e == ReportFraud(p, Sybil) || (p in t.banned && e != Unban(p));
            var suspicious := e == MarkSuspicious(p) || e == ReportFraud(p, Sybil) || e == ReportFraud(p, Manipulation)
                              || (p in t.suspicious && e != UnmarkSuspicious(p));
            Verified(Step(t, e), p) <==> fingerprint && !banned && !suspicious
  {
  }

  class PeerVerification {
    var fingerprints: set<PeerId>
    var suspiciousPeers: set<PeerId>
    var bannedPeers: set<PeerId>

    ghost function Value(): Tables
      reads this
    {
      Tables(fingerprints, suspiciousPeers, bannedPeers)
    }

    constructor ()
      ensures Value() == Empty
    {
      fingerprints, suspiciousPeers, bannedPeers := {}, {}, {};
    }

    /** A missing fingerprint, a ban and a suspicion refuse the peer, in this order. */
    method VerifyPeer(p: PeerId) returns (verified: bool)
      ensures verified <==> Verified(Value(), p)
    {
      if p !in fingerprints {
        return false;
      }
      if p in bannedPeers {
        return false;
      }
      return p !in suspiciousPeers;
    }

    method RegisterFingerprint(p: PeerId)
      modifies this
      ensures Value() == Step(old(Value()), Register(p))
    {
      fingerprints := fingerprints + {p};
    }

    method Report(p: PeerId, fraud: FraudType)
      modifies this
      ensures Value() == Step(old(Value()), ReportFraud(p, fraud))
    {
      if fraud == Sybil || fraud == Manipulation {
        suspiciousPeers := suspiciousPeers + {p};
      }
      if fraud == Sybil {
        bannedPeers := bannedPeers + {p};
      }
    }

    method ClearAll()
      modifies this
      ensures Value() == Empty
    {
      fingerprints, suspiciousPeers, bannedPeers := {}, {}, {};
    }
  }
}
