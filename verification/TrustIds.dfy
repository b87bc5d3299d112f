/** The text of a trust report's id in src/consensus/DistributedTrustManager.ts, on UTF-16 code units. */
module TrustIds {
  import opened Utf8
  import opened CanonicalJson
  import opened Buckets

  const BAR: Unit := 95  // '_'

  /** "trust_report_" */
  const PREFIX: Text := [116, 114, 117, 115, 116, BAR, 114, 101, 112, 111, 114, 116, BAR]

  /** The two peers as they stand in the id. */
  function Pair(reporter: Text, peer: Text): Text { reporter + [BAR] + peer }

  function IdText(reporter: Text, peer: Text, time: nat): Text {
    PREFIX + (Pair(reporter, peer) + [BAR] + Digits(time))
  }

  /** The text after the last bar is the only part without one. */
  lemma LastBar(x: Text, d: Text, y: Text, e: Text)
    requires x + [BAR] + d == y + [BAR] + e && BAR !in d && BAR !in e
    ensures x == y && d == e
  {
    var s := x + [BAR] + d;
    assert s[|x|] == BAR && s[|y|] == BAR;
    forall i | |x| < i < |s| ensures s[i] != BAR {
      assert s[i] == d[i - |x| - 1];
    }
    forall i | |y| < i < |s| ensures s[i] != BAR {
      assert s[i] == e[i - |y| - 1];
    }
    assert s[..|x|] == x && s[..|y|] == y;
    assert s[|x| + 1..] == d && s[|y| + 1..] == e;
  }

  /** Two reports have the same id exactly when they are of one time and their peers join to the same text. */
  lemma SameIdIff(r: Text, p: Text, t: nat, r2: Text, p2: Text, t2: nat)
    ensures IdText(r, p, t) == IdText(r2, p2, t2) <==> t == t2 && Pair(r, p) == Pair(r2, p2)
  {
    if IdText(r, p, t) == IdText(r2, p2, t2) {
      var x, y := Pair(r, p), Pair(r2, p2);
      DigitsBack(t);
      DigitsBack(t2);
      hide Digits, DigitsValue, Pair;
      assert IdText(r, p, t)[|PREFIX|..] == x + [BAR] + Digits(t);
      assert IdText(r2, p2, t2)[|PREFIX|..] == y + [BAR] + Digits(t2);
      LastBar(x, Digits(t), y, Digits(t2));
    }
  }

  /** Another pair of peers shares the id exactly when one of the two names contains a bar: without bars the id
      names its reporter and its peer. */
  lemma AmbiguousIff(r: Text, p: Text, t: nat)
    ensures (exists r2, p2, t2: nat :: IdText(r2, p2, t2) == IdText(r, p, t) && (r2, p2) != (r, p))
            <==> BAR in r || BAR in p
  {
    hide IdText;
    if BAR in r {
      var k :| 0 <= k < |r| && r[k] == BAR;
      var p2 := r[k + 1..] + [BAR] + p;
      assert Pair(r[..k], p2) == Pair(r, p);
      SameIdIff(r[..k], p2, t, r, p, t);
    } else if BAR in p {
      var k :| 0 <= k < |p| && p[k] == BAR;
      var r2 := r + [BAR] + p[..k];
      assert Pair(r2, p[k + 1..]) == Pair(r, p);
      SameIdIff(r2, p[k + 1..], t, r, p, t);
    } else {
      forall r2, p2, t2: nat | IdText(r2, p2, t2) == IdText(r, p, t) ensures (r2, p2) == (r, p) {
        SameIdIff(r2, p2, t2, r, p, t);
        OneBar(r, p, r2, p2);
      }
    }
  }

  lemma OneBar(r: Text, p: Text, r2: Text, p2: Text)
    requires Pair(r, p) == Pair(r2, p2) && BAR !in r && BAR !in p
    ensures r == r2 && p == p2
  {
    var s := Pair(r, p);
    assert s[|r2|] == BAR;
    assert s[..|r|] == r && s[..|r2|] == r2 && s[|r| + 1..] == p && s[|r2| + 1..] == p2;
  }

  // ---------- What a shared id does to the indexes ----------

  datatype Names = Names(reporter: Text, peer: Text)

  /** The reports by the text of their ids, and the two indexes over them. */
  datatype Reports = Reports(names: map<Text, Names>, byPeer: map<Text, seq<Text>>, byReporter: map<Text, seq<Text>>)

  const NoReports: Reports := Reports(map[], map[], map[])

  /** The three `set` and `add` calls of a submission. */
  function Submit(s: Reports, reporter: Text, peer: Text, time: nat): Reports {
    var id := IdText(reporter, peer, time);
    Reports(s.names[id := Names(reporter, peer)],
            Buckets.Insert(s.byPeer, peer, id), Buckets.Insert(s.byReporter, reporter, id))
  }

  /** Each bucket holds the ids of exactly the reports about its peer, or by its reporter. */
  ghost predicate Filed(s: Reports) {
    && (forall p, id :: id in Bucket(s.byPeer, p) <==> id in s.names && s.names[id].peer == p)
    && (forall r, id :: id in Bucket(s.byReporter, r) <==> id in s.names && s.names[id].reporter == r)
  }

  lemma AddedMember(m: map<Text, seq<Text>>, k: Text, id: Text)
    ensures forall j, x :: x in Bucket(Buckets.Insert(m, k, id), j) <==> x in Bucket(m, j) || (j == k && x == id)
  {
  }

  /** A submission breaks the indexes if and only if its id is already that of a report with other names. */
  lemma SubmitBreaksIff(s: Reports, reporter: Text, peer: Text, time: nat)
    requires Filed(s)
    ensures var id := IdText(reporter, peer, time);
            !Filed(Submit(s, reporter, peer, time)) <==> id in s.names && s.names[id] != Names(reporter, peer)
  {
    hide IdText, Buckets.Insert, Bucket;
    var id, t := IdText(reporter, peer, time), Submit(s, reporter, peer, time);
    AddedMember(s.byPeer, peer, id);
    AddedMember(s.byReporter, reporter, id);
    if id in s.names && s.names[id] != Names(reporter, peer) {
      var old' := s.names[id];
      assert id in Bucket(s.byPeer, old'.peer) && id in Bucket(s.byReporter, old'.reporter);
      assert t.names[id] == Names(reporter, peer);
      assert id in Bucket(t.byPeer, old'.peer) && id in Bucket(t.byReporter, old'.reporter);
    }
  }

  /** So a first report breaks the indexes for some second one of its time if and only if a name contains a bar. */
  lemma BreakableIff(reporter: Text, peer: Text, time: nat)
    ensures var s := Submit(NoReports, reporter, peer, time);
            && Filed(s)
            && ((exists r, p, t: nat :: !Filed(Submit(s, r, p, t))) <==> BAR in reporter || BAR in peer)
  {
    hide IdText, Filed, Submit;
    var s := Submit(NoReports, reporter, peer, time);
    assert Filed(NoReports) by { NothingFiled(); }
    SubmitBreaksIff(NoReports, reporter, peer, time);
    FirstReport(reporter, peer, time);
    AmbiguousIff(reporter, peer, time);
    forall r, p, t: nat ensures !Filed(Submit(s, r, p, t)) <==>
                                IdText(r, p, t) == IdText(reporter, peer, time) && (r, p) != (reporter, peer) {
      SubmitBreaksIff(s, r, p, t);
    }
  }

  lemma NothingFiled()
    ensures Filed(NoReports)
  {
  }

  lemma FirstReport(reporter: Text, peer: Text, time: nat)
    ensures Submit(NoReports, reporter, peer, time).names == map[IdText(reporter, peer, time) := Names(reporter, peer)]
  {
  }
}
