/** The incremental reader that attachSocket of scripts/signaling-server.js puts around the frame decoder. */
module FrameStream {
  import opened JsNumbers
  import opened Prelude
  import opened Frames

  /** Frames taken from a buffer, and what is left of it. */
  datatype Drained = Drained(frames: seq<Frame>, rest: seq<Byte>)

  /** Takes frames off the front until one is incomplete or a close frame has been taken. */
  function Drain(b: seq<Byte>): Drained
    decreases |b|
  {
    match Decode(b)
    case Incomplete => Drained([], b)
    case Complete(frame, n) =>
      DecodeStable(b, []);
      if frame.opcode == CLOSE then Drained([frame], b[n..])
      else
        var d := Drain(b[n..]);
        Drained([frame] + d.frames, d.rest)
  }

  /** All frames handled when the stream arrives as `chunks`, starting with `buffer` left over. */
  function Feed(buffer: seq<Byte>, chunks: seq<seq<Byte>>): seq<Frame>
    decreases |chunks|
  {
    if chunks == [] then []
    else
      var d := Drain(buffer + chunks[0]);
      d.frames + Feed(d.rest, chunks[1..])
  }

  predicate HasClose(frames: seq<Frame>) {
    exists i :: 0 <= i < |frames| && frames[i].opcode == CLOSE
  }

  /** The frames up to and including the first close frame. */
  function UpToClose(frames: seq<Frame>): seq<Frame> {
    if frames == [] then []
    else if frames[0].opcode == CLOSE then [frames[0]]
    else [frames[0]] + UpToClose(frames[1..])
  }

  // ---------- The reader ----------

  class FrameReader {
    var buffer: seq<Byte>
    var frames: seq<Frame>

    constructor ()
      ensures buffer == [] && frames == []
    {
      buffer, frames := [], [];
    }

    /** One `data` event. The handler stays attached after a close frame, as in the source. */
    method OnData(chunk: seq<Byte>)
      modifies this
      ensures frames == old(frames) + Drain(old(buffer) + chunk).frames
      ensures buffer == Drain(old(buffer) + chunk).rest
    {
      hide Decode, Drain;
      buffer := buffer + chunk;
      ghost var all := Drain(buffer);
      while |buffer| > 0
        invariant frames + Drain(buffer).frames == old(frames) + all.frames
        invariant Drain(buffer).rest == all.rest
        decreases |buffer|
      {
        DrainStep(buffer);
        var decoded := DecodeFrame(buffer);
        if decoded.Incomplete? {
          return;
        }
        ghost var later := Drain(buffer[decoded.bytesRead..]).frames;
        assert frames + ([decoded.frame] + later) == frames + [decoded.frame] + later;
        frames := frames + [decoded.frame];
        buffer := buffer[decoded.bytesRead..];
        if decoded.frame.opcode == CLOSE {
          return;
        }
      }
      DrainStep(buffer);
    }
  }

  /** One turn of the loop; every decoded frame takes at least one byte. */
  lemma DrainStep(b: seq<Byte>)
    ensures Decode(b).Incomplete? ==> Drain(b) == Drained([], b)
    ensures Decode(b).Complete? ==>
      var (f, n) := (Decode(b).frame, Decode(b).bytesRead);
      && 0 < n <= |b|
      && Drain(b) == if f.opcode == CLOSE then Drained([f], b[n..])
                     else Drained([f] + Drain(b[n..]).frames, Drain(b[n..]).rest)
  {
    if Decode(b).Complete? {
      DecodeStable(b, []);
    }
  }

  // ---------- What one data event takes and leaves ----------

  /** The bytes behind the first `k` frames. */
  ghost function Behind(b: seq<Byte>, k: nat): seq<Byte> {
    if k == 0 then b
    else
      match Decode(b)
      case Incomplete => []
      case Complete(_, n) => if n <= |b| then Behind(b[n..], k - 1) else []
  }

  /** The frames taken are those that follow one another in the buffer, up to and with the first close or until the
      next is incomplete, and what stays in the buffer is all that is behind them. */
  lemma {:induction false} DrainTakes(b: seq<Byte>)
    ensures var d := Drain(b);
            && d.rest == Behind(b, |d.frames|)
            && (forall i | 0 <= i < |d.frames| ::
                  Decode(Behind(b, i)).Complete? && d.frames[i] == Decode(Behind(b, i)).frame)
            && (forall i | 0 <= i < |d.frames| - 1 :: d.frames[i].opcode != CLOSE)
            && ((d.frames != [] && d.frames[|d.frames| - 1].opcode == CLOSE) || Decode(d.rest).Incomplete?)
    decreases |b|
  {
    hide Decode, Drain;
    DrainStep(b);
    if Decode(b).Complete? && Decode(b).frame.opcode != CLOSE {
      var n := Decode(b).bytesRead;
      DrainTakes(b[n..]);
      var d, e := Drain(b), Drain(b[n..]);
      forall i | 0 <= i < |d.frames|
        ensures Decode(Behind(b, i)).Complete? && d.frames[i] == Decode(Behind(b, i)).frame
      {
        assert i > 0 ==> Behind(b, i) == Behind(b[n..], i - 1) && d.frames[i] == e.frames[i - 1];
      }
      assert forall i | 0 < i < |d.frames| :: d.frames[i] == e.frames[i - 1];
    }
  }

  // ---------- Chunking independence ----------

  /** Draining early commutes with later bytes: nothing taken is taken differently. */
  lemma {:induction false} DrainAppend(b: seq<Byte>, more: seq<Byte>)
    ensures var d := Drain(b);
            if HasClose(d.frames) then Drain(b + more).frames == d.frames
            else Drain(b + more) == Drained(d.frames + Drain(d.rest + more).frames, Drain(d.rest + more).rest)
    decreases |b|
  {
    hide Decode, Drain;
    DrainStep(b);
    if Decode(b).Complete? {
      DecodeStable(b, more);
      DrainStep(b + more);
      var f, n := Decode(b).frame, Decode(b).bytesRead;
      if f.opcode == CLOSE {
        HasCloseCons(f, []);
        assert [f] + [] == [f];
      } else {
        OpenFrame(b);
        assert (b + more)[n..] == b[n..] + more;
        DrainAppend(b[n..], more);
        HasCloseCons(f, Drain(b[n..]).frames);
        var now, later := Drain(b[n..]).frames, Drain(Drain(b[n..]).rest + more).frames;
        assert [f] + (now + later) == [f] + now + later;
      }
    } else {
      assert [] + Drain(b + more).frames == Drain(b + more).frames;
    }
  }

  lemma OpenFrame(b: seq<Byte>)
    requires Decode(b).Complete? && Decode(b).frame.opcode != CLOSE
    ensures Header(b).value.0 <= MAX_FRAME_BYTES
  {
  }

  lemma HasCloseCons(f: Frame, rest: seq<Frame>)
    ensures HasClose([f] + rest) <==> f.opcode == CLOSE || HasClose(rest)
  {
    assert ([f] + rest)[0] == f;
    if HasClose(rest) {
      var i :| 0 <= i < |rest| && rest[i].opcode == CLOSE;
      assert ([f] + rest)[i + 1].opcode == CLOSE;
    }
  }

  lemma {:induction false} DrainStops(b: seq<Byte>)
    ensures UpToClose(Drain(b).frames) == Drain(b).frames
    decreases |b|
  {
    hide Decode;
    DrainStep(b);
    if Decode(b).Complete? && Decode(b).frame.opcode != CLOSE {
      DrainStops(b[Decode(b).bytesRead..]);
    }
  }

  lemma Associate(a: seq<Frame>, b: seq<Frame>, c: seq<Frame>)
    ensures a + (b + c) == a + b + c
  {
  }

  lemma {:induction false} UpToCloseAppend(x: seq<Frame>, y: seq<Frame>)
    ensures UpToClose(x + y) == if HasClose(x) then UpToClose(x) else x + UpToClose(y)
  {
    if x == [] {
      assert x + y == y;
    } else {
      hide HasClose;
      var f, rest := x[0], x[1..];
      assert x == [f] + rest && (x + y)[1..] == rest + y;
      HasCloseCons(f, rest);
      if f.opcode != CLOSE {
        UpToCloseAppend(rest, y);
        Associate([f], rest, UpToClose(y));
      }
    }
  }

  /** However the stream is cut into chunks, the frames up to the first close are those of the whole stream. */
  lemma {:induction false} ChunkingIndependence(buffer: seq<Byte>, chunks: seq<seq<Byte>>)
    requires Drain(buffer) == Drained([], buffer)
    ensures UpToClose(Feed(buffer, chunks)) == Drain(buffer + Flatten(chunks)).frames
    decreases |chunks|
  {
    if chunks == [] {
      assert buffer + Flatten(chunks) == buffer;
    } else {
      var first, later := buffer + chunks[0], Flatten(chunks[1..]);
      var d := Drain(first);
      assert buffer + Flatten(chunks) == first + later;
      DrainAppend(first, later);
      UpToCloseAppend(d.frames, Feed(d.rest, chunks[1..]));
      DrainStops(first);
      if !HasClose(d.frames) {
        DrainLeaves(first);
        ChunkingIndependence(d.rest, chunks[1..]);
      }
    }
  }

  /** Without a close frame the rest holds no complete frame. */
  lemma {:induction false} DrainLeaves(b: seq<Byte>)
    requires !HasClose(Drain(b).frames)
    ensures Drain(Drain(b).rest) == Drained([], Drain(b).rest)
    decreases |b|
  {
    hide Decode;
    DrainStep(b);
    if Decode(b).Complete? {
      var f, n := Decode(b).frame, Decode(b).bytesRead;
      HasCloseCons(f, if f.opcode == CLOSE then [] else Drain(b[n..]).frames);
      assert [f] + [] == [f];
      DrainLeaves(b[n..]);
    }
  }

  /** Two ways of cutting the same stream handle the same frames up to the first close. */
  lemma SameStreamSameFrames(xs: seq<seq<Byte>>, ys: seq<seq<Byte>>)
    requires Flatten(xs) == Flatten(ys)
    ensures UpToClose(Feed([], xs)) == UpToClose(Feed([], ys))
  {
    ChunkingIndependence([], xs);
    ChunkingIndependence([], ys);
  }

  // ---------- After the first close ----------

  /** The stream from its first close frame on. */
  function CloseAt(b: seq<Byte>): (c: Option<seq<Byte>>)
    ensures c.Some? ==> |c.value| <= |b| && Decode(c.value).Complete? && Decode(c.value).frame.opcode == CLOSE
    decreases |b|
  {
    match Decode(b)
    case Incomplete => None
    case Complete(frame, n) =>
      DecodeStable(b, []);
      if frame.opcode == CLOSE then Some(b) else CloseAt(b[n..])
  }

  /** What follows the close frame at the front holds no frame: after an ordinary close from its end on; after
      an oversize one, which takes all bytes there are when it is decoded, from any place behind its header on. */
  ghost predicate QuietFrom(c: seq<Byte>)
    requires Decode(c).Complete?
  {
    DecodeStable(c, []);
    if Header(c).value.0 <= MAX_FRAME_BYTES then Decode(c[Decode(c).bytesRead..]).Incomplete?
    else forall n | Header(c).value.1 <= n <= |c| :: Decode(c[n..]).Incomplete?
  }

  ghost predicate QuietAfterClose(b: seq<Byte>) { CloseAt(b).Some? ==> QuietFrom(CloseAt(b).value) }

  /** Every way of cutting the stream handles the same frames. */
  ghost predicate SameForAllCuts(b: seq<Byte>) {
    forall xs: seq<seq<Byte>>, ys: seq<seq<Byte>> | Flatten(xs) == b && Flatten(ys) == b :: Feed([], xs) == Feed([], ys)
  }

  /** A stream without a complete frame handles none, however it is cut. */
  lemma {:induction false} QuietFeed(buffer: seq<Byte>, chunks: seq<seq<Byte>>)
    requires Decode(buffer + Flatten(chunks)).Incomplete?
    ensures Feed(buffer, chunks) == []
    decreases |chunks|
  {
    hide Decode;
    if chunks != [] {
      var first, later := buffer + chunks[0], Flatten(chunks[1..]);
      assert buffer + Flatten(chunks) == first + later;
      if Decode(first).Complete? {
        DecodeStable(first, later);
      }
      DrainStep(first);
      QuietFeed(first, chunks[1..]);
    }
  }

  function DecodedLength(c: seq<Byte>): nat { if Decode(c).Complete? then Decode(c).bytesRead else 0 }

  /** Later bytes do not move the first close; they only come behind it. */
  lemma {:induction false} CloseAtAppend(b: seq<Byte>, more: seq<Byte>)
    ensures var d := Drain(b);
            if HasClose(d.frames) then
              && CloseAt(b).Some? && CloseAt(b + more) == Some(CloseAt(b).value + more)
              && DecodedLength(CloseAt(b).value) <= |CloseAt(b).value|
              && d.rest == CloseAt(b).value[DecodedLength(CloseAt(b).value)..]
            else CloseAt(b + more) == CloseAt(d.rest + more)
    decreases |b|
  {
    hide Decode, Drain;
    DrainStep(b);
    if Decode(b).Complete? {
      DecodeStable(b, more);
      var f, n := Decode(b).frame, Decode(b).bytesRead;
      if f.opcode == CLOSE {
        HasCloseCons(f, []);
        assert [f] + [] == [f];
      } else {
        OpenFrame(b);
        assert (b + more)[n..] == b[n..] + more;
        CloseAtAppend(b[n..], more);
        HasCloseCons(f, Drain(b[n..]).frames);
      }
    }
  }

  lemma {:induction false} CutsAgree(buffer: seq<Byte>, chunks: seq<seq<Byte>>)
    requires Drain(buffer) == Drained([], buffer) && QuietAfterClose(buffer + Flatten(chunks))
    ensures Feed(buffer, chunks) == Drain(buffer + Flatten(chunks)).frames
    decreases |chunks|
  {
    hide Decode;
    if chunks == [] {
      assert buffer + Flatten(chunks) == buffer;
    } else {
      var first, later := buffer + chunks[0], Flatten(chunks[1..]);
      var d := Drain(first);
      assert buffer + Flatten(chunks) == first + later;
      DrainAppend(first, later);
      CloseAtAppend(first, later);
      hide Drain, CloseAt;
      if HasClose(d.frames) {
        QuietBehind(CloseAt(first).value, later);
        QuietFeed(d.rest, chunks[1..]);
        assert d.frames + [] == d.frames;
      } else {
        DrainLeaves(first);
        CutsAgree(d.rest, chunks[1..]);
      }
    }
  }

  /** What is left of the close and comes later holds no frame. */
  lemma QuietBehind(c: seq<Byte>, later: seq<Byte>)
    requires Decode(c).Complete? && Decode(c + later).Complete? && QuietFrom(c + later)
    ensures DecodedLength(c) <= |c| && Decode(c[DecodedLength(c)..] + later).Incomplete?
  {
    DecodeStable(c, later);
    HeaderStable(c, later);
    var n := Decode(c).bytesRead;
    if Header(c).value.0 <= MAX_FRAME_BYTES {
      assert (c + later)[n..] == c[n..] + later;
    } else {
      OversizeTakesAll(c);
      assert c[n..] + later == later == (c + later)[|c|..];
      hide Decode, Header;
      assert |c| <= |c + later|;
    }
  }

  lemma OversizeTakesAll(c: seq<Byte>)
    requires Header(c).Some? && Header(c).value.0 > MAX_FRAME_BYTES
    ensures Decode(c) == Complete(Frame(CLOSE, []), |c|)
  {
  }

  /** A place to cut: behind an ordinary close, or anywhere behind the header of an oversize one. */
  predicate CutPlace(c: seq<Byte>, k: nat)
    requires Decode(c).Complete?
  {
    if Header(c).value.0 <= MAX_FRAME_BYTES then k == Decode(c).bytesRead else Header(c).value.1 <= k <= |c|
  }

  /** A frame within the limit is decoded from any prefix that holds it. */
  lemma DecodePrefix(b: seq<Byte>, m: nat)
    requires Decode(b).Complete? && Header(b).value.0 <= MAX_FRAME_BYTES && Decode(b).bytesRead <= m <= |b|
    ensures Decode(b[..m]) == Decode(b)
  {
    hide Decode, Header, WireFrame.Bytes, WireFrame.Valid;
    var w := AcceptedIsWire(b);
    var n := |w.Bytes()|;
    assert b[..m] == w.Bytes() + b[n..m];
    WithinLimit(b, w);
    DecodeWire(w, b[n..m]);
  }

  lemma WithinLimit(b: seq<Byte>, w: WireFrame)
    requires Decode(b).Complete? && Header(b).value.0 <= MAX_FRAME_BYTES && w.Meaning() == Decode(b).frame
    ensures |w.payload| <= MAX_FRAME_BYTES
  {
  }

  lemma OversizePrefix(c: seq<Byte>, k: nat)
    requires Header(c).Some? && Header(c).value.0 > MAX_FRAME_BYTES && Header(c).value.1 <= k <= |c|
    ensures Decode(c[..k]) == Complete(Frame(CLOSE, []), k)
  {
    var d := c[..k];
    assert d[1] == c[1];
    assert k >= 10 ==> d[2..10] == c[2..10];
    assert k >= 4 ==> d[2..4] == c[2..4];
    OversizeTakesAll(d);
  }

  /** Cut there, the first part ends with the close and leaves nothing. */
  lemma {:induction false} CutAtClose(b: seq<Byte>, k: nat)
    requires CloseAt(b).Some? && CutPlace(CloseAt(b).value, k) && k <= |CloseAt(b).value|
    ensures var c := CloseAt(b).value;
            var m := |b| - |c| + k;
            && 0 <= m <= |b| && b[m..] == c[k..]
            && HasClose(Drain(b[..m]).frames) && Drain(b[..m]).rest == []
    decreases |b|
  {
    hide Decode, Header, Drain, CutPlace;
    DrainStep(b);
    var c := CloseAt(b).value;
    var m := |b| - |c| + k;
    DrainStep(b[..m]);
    if Decode(b).frame.opcode == CLOSE {
      CutIsClose(b, k);
      HasCloseCons(Frame(CLOSE, []), []);
      ClosedAlone(b[..k]);
    } else {
      OpenFrame(b);
      var n := Decode(b).bytesRead;
      assert CloseAt(b) == CloseAt(b[n..]);
      CutAtClose(b[n..], k);
      DecodePrefix(b, m);
      assert b[..m][n..] == b[n..][..m - n];
      assert b[n..][m - n..] == b[m..];
      HasCloseCons(Decode(b).frame, Drain(b[n..][..m - n]).frames);
    }
  }

  lemma CutIsClose(c: seq<Byte>, k: nat)
    requires Decode(c).Complete? && Decode(c).frame.opcode == CLOSE && CutPlace(c, k) && k <= |c|
    ensures Decode(c[..k]).Complete? && Decode(c[..k]).frame.opcode == CLOSE && Decode(c[..k]).bytesRead == k
  {
    if Header(c).value.0 <= MAX_FRAME_BYTES {
      DecodePrefix(c, k);
    } else {
      OversizePrefix(c, k);
    }
  }

  lemma ClosedAlone(c: seq<Byte>)
    requires Decode(c).Complete? && Decode(c).frame.opcode == CLOSE && Decode(c).bytesRead == |c|
    ensures HasClose(Drain(c).frames) && Drain(c).rest == []
  {
    hide Decode;
    DrainStep(c);
    assert Drain(c).frames[0].opcode == CLOSE;
  }

  /** A frame behind a place to cut is handled when the stream is cut there, and is not when it comes whole. */
  lemma CutsDiffer(b: seq<Byte>, k: nat)
    requires CloseAt(b).Some? && CutPlace(CloseAt(b).value, k) && k <= |CloseAt(b).value|
    requires Decode(CloseAt(b).value[k..]).Complete?
    ensures !SameForAllCuts(b)
  {
    hide Decode, Drain, CloseAt, CutPlace, Feed, Flatten, HasClose, SameForAllCuts;
    var m := |b| - |CloseAt(b).value| + k;
    CutAtClose(b, k);
    assert b == b[..m] + b[m..];
    FeedOne(b);
    FeedTwo(b[..m], b[m..]);
    LaterFrame(b[..m], b[m..]);
    NotSame(b, [b[..m], b[m..]], [b]);
  }

  lemma NotSame(b: seq<Byte>, xs: seq<seq<Byte>>, ys: seq<seq<Byte>>)
    requires Flatten(xs) == b && Flatten(ys) == b && Feed([], xs) != Feed([], ys)
    ensures !SameForAllCuts(b)
  {
  }

  lemma LaterFrame(x: seq<Byte>, y: seq<Byte>)
    requires HasClose(Drain(x).frames) && Drain(x).rest == [] && Decode(y).Complete?
    ensures Feed([], [x, y]) != Feed([], [x + y])
  {
    hide Decode, Drain, Feed, HasClose;
    DrainAppend(x, y);
    DrainStep(y);
    FeedTwo(x, y);
    FeedOne(x + y);
    assert [] + y == y;
    assert |Drain(y).frames| > 0;
  }

  lemma FeedOne(x: seq<Byte>)
    ensures Flatten([x]) == x && Feed([], [x]) == Drain(x).frames
  {
    assert [x][1..] == [] && [] + x == x && Flatten([x]) == x + Flatten([x][1..]);
    assert Feed([], [x]) == Drain([] + x).frames + Feed(Drain([] + x).rest, []);
  }

  lemma FeedTwo(x: seq<Byte>, y: seq<Byte>)
    ensures Flatten([x, y]) == x + y && Feed([], [x, y]) == Drain(x).frames + Drain(Drain(x).rest + y).frames
  {
    hide Drain;
    FeedOne(y);
    assert [x, y][1..] == [y] && [] + x == x;
    var r := Drain(x).rest;
    assert Feed(r, [y]) == Drain(r + y).frames + Feed(Drain(r + y).rest, [y][1..]);
  }

  /** For every stream: all ways of cutting it handle the same frames if and only if it holds no close frame, or
      nothing behind the first one is a frame. */
  lemma CutsAgreeIff(b: seq<Byte>)
    ensures SameForAllCuts(b) <==> QuietAfterClose(b)
  {
    hide Decode, Header, Drain, CloseAt;
    if QuietAfterClose(b) {
      forall xs: seq<seq<Byte>> | Flatten(xs) == b ensures Feed([], xs) == Drain(b).frames {
        assert [] + Flatten(xs) == b;
        DrainStep([]);
        NothingInNothing();
        CutsAgree([], xs);
      }
    } else {
      var c := CloseAt(b).value;
      DecodeStable(c, []);
      var k := LoudPlace(c);
      CutsDiffer(b, k);
    }
  }

  lemma NothingInNothing()
    ensures Decode([]).Incomplete?
  {
  }

  lemma LoudPlace(c: seq<Byte>) returns (k: nat)
    requires Decode(c).Complete? && !QuietFrom(c)
    ensures CutPlace(c, k) && k <= |c| && Decode(c[k..]).Complete?
  {
    DecodeStable(c, []);
    if Header(c).value.0 <= MAX_FRAME_BYTES {
      k := Decode(c).bytesRead;
    } else {
      k :| Header(c).value.1 <= k <= |c| && !Decode(c[k..]).Incomplete?;
    }
  }

  /** For instance a close and a text frame, together or apart. */
  lemma AfterCloseCutsMatter()
    ensures !SameForAllCuts([0x88, 0, 0x81, 0])
  {
    var b: seq<Byte> := [0x88, 0, 0x81, 0];
    assert Decode(b) == Complete(Frame(CLOSE, []), 2);
    assert b[2..] == [0x81, 0] && Decode(b[2..]) == Complete(Frame(TEXT, []), 2);
    assert CloseAt(b) == Some(b);
    CutsDiffer(b, 2);
  }

  // ---------- Whole conversations ----------

  function WireBytes(ws: seq<WireFrame>): seq<Byte>
    requires forall w <- ws :: w.Valid()
  {
    if ws == [] then [] else ws[0].Bytes() + WireBytes(ws[1..])
  }

  function Meanings(ws: seq<WireFrame>): seq<Frame> {
    if ws == [] then [] else [ws[0].Meaning()] + Meanings(ws[1..])
  }

  lemma {:induction false} DrainWire(ws: seq<WireFrame>)
    requires forall w <- ws :: w.Valid() && |w.payload| <= MAX_FRAME_BYTES
    ensures Drain(WireBytes(ws)).frames == UpToClose(Meanings(ws))
  {
    if ws != [] {
      hide Decode, WireFrame.Bytes;
      var rest := WireBytes(ws[1..]);
      DecodeWire(ws[0], rest);
      DrainStep(WireBytes(ws));
      assert WireBytes(ws)[|ws[0].Bytes()|..] == rest;
      DrainWire(ws[1..]);
    }
  }

  /** Frames sent one after another arrive as themselves, however the network cuts the bytes. */
  lemma ConversationDelivered(ws: seq<WireFrame>, chunks: seq<seq<Byte>>)
    requires forall w <- ws :: w.Valid() && |w.payload| <= MAX_FRAME_BYTES
    requires Flatten(chunks) == WireBytes(ws)
    ensures UpToClose(Feed([], chunks)) == UpToClose(Meanings(ws))
  {
    ChunkingIndependence([], chunks);
    assert [] + Flatten(chunks) == Flatten(chunks);
    DrainWire(ws);
  }
}
