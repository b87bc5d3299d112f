/** WebSocket framing of scripts/signaling-server.js (sections 5.2 and 5.3 of RFC 6455). */
module Frames {
  import opened JsNumbers
  import opened Prelude

  const MAX_FRAME_BYTES: nat := 256 * 1024
  const TEXT: nat := 1
  const CLOSE: nat := 8

  datatype Frame = Frame(opcode: nat, payload: seq<Byte>)

  /** Result of one decoding attempt: more bytes are needed, or a frame and the bytes it took. */
  datatype Decoded = Incomplete | Complete(frame: Frame, bytesRead: nat)

  // ---------- Wire format ----------

  /** Which of the three payload-length encodings a frame uses. */
  datatype Form = Short | Medium | Long

  predicate Fits(form: Form, length: nat) {
    length < match form case Short => 126 case Medium => 0x1_0000 case Long => 0x1_0000_0000_0000_0000
  }

  datatype WireFrame = WireFrame(first: Byte, mask: Option<seq<Byte>>, form: Form, payload: seq<Byte>) {
    predicate Valid() {
      && (mask.Some? ==> |mask.value| == 4)
      && Fits(form, |payload|)
    }

    function Meaning(): Frame { Frame(first % 16, payload) }

    function LengthBytes(): seq<Byte>
      requires Valid()
    {
      var m := if mask.Some? then 128 else 0;
      match form
      case Short => [m + |payload|]
      case Medium => [m + 126] + BigEndian(|payload|, 2)
      case Long => [m + 127] + BigEndian(|payload|, 8)
    }

    function Bytes(): seq<Byte>
      requires Valid()
    {
      [first] + LengthBytes() +
      match mask
      case None => payload
      case Some(key) => key + Masked(payload, key)
    }
  }

  function BigEndian(n: nat, width: nat): (b: seq<Byte>)
    ensures |b| == width
  {
    if width == 0 then [] else BigEndian(n / 256, width - 1) + [n % 256]
  }

  function ReadBigEndian(b: seq<Byte>): nat {
    if b == [] then 0 else ReadBigEndian(b[..|b| - 1]) * 256 + b[|b| - 1]
  }

  function XorByte(a: Byte, b: Byte): Byte {
    XorBelow(a, b);
    Xor(a, b)
  }

  lemma XorBelow(a: Byte, b: Byte)
    ensures Xor(a, b) < 256
  {
    assert Pow2(8) == 256 by {
      Pow2Values();
      assert Pow2(8) == 4 * Pow2(6);
    }
    BitsBelow(a, b, 8);
  }

  lemma {:induction false} XorTwice(a: nat, b: nat)
    ensures Xor(Xor(a, b), b) == a
    decreases a + b
  {
    if a != 0 && b != 0 {
      XorTwice(a / 2, b / 2);
      var x := Xor(a, b);
      assert x / 2 == Xor(a / 2, b / 2);
      XorUnfold(x, b);
    } else {
      XorSelf(b);
    }
  }

  lemma XorUnfold(a: nat, b: nat)
    ensures Xor(a, b) == 2 * Xor(a / 2, b / 2) + (if a % 2 != b % 2 then 1 else 0)
  {
    if a == 0 || b == 0 {
      assert Xor(0, b / 2) == b / 2 && Xor(a / 2, 0) == a / 2;
    }
  }

  lemma {:induction false} XorSelf(a: nat)
    ensures Xor(a, a) == 0 && Xor(0, a) == a
  {
    if a != 0 {
      XorSelf(a / 2);
    }
  }

  /** Section 5.3 of RFC 6455: octet i is combined with octet i mod 4 of the masking key. */
  function Masked(data: seq<Byte>, key: seq<Byte>): (r: seq<Byte>)
    requires |key| == 4
    ensures |r| == |data|
  {
    seq(|data|, i requires 0 <= i < |data| => XorByte(data[i], key[i % 4]))
  }

  lemma MaskedTwice(data: seq<Byte>, key: seq<Byte>)
    requires |key| == 4
    ensures Masked(Masked(data, key), key) == data
  {
    forall i | 0 <= i < |data| ensures Masked(Masked(data, key), key)[i] == data[i] {
      XorTwice(data[i], key[i % 4]);
    }
  }

  // ---------- Decoding ----------

  /** Header of a buffer: the payload length and where the length bytes end, once they are all there. */
  function Header(b: seq<Byte>): (h: Option<(nat, nat)>)
    ensures h.Some? ==> 2 <= h.value.1 <= |b|
  {
    if |b| < 2 then None
    else
      var length := b[1] % 128;
      if length == 126 then
        if |b| < 4 then None else Some((ReadBigEndian(b[2..4]), 4))
      else if length == 127 then
        if |b| < 10 then None else Some((ReadBigEndian(b[2..10]), 10))
      else Some((length, 2))
  }

  /** What follows the header: a key of four bytes when masked, and the payload. */
  function DecodeBody(opcode: nat, masked: bool, tail: seq<Byte>, length: nat): Decoded {
    if masked then
      if |tail| < 4 + length then Incomplete
      else Complete(Frame(opcode, Masked(tail[4..4 + length], tail[..4])), 4 + length)
    else
      if |tail| < length then Incomplete else Complete(Frame(opcode, tail[..length]), length)
  }

  function Decode(b: seq<Byte>): Decoded {
    match Header(b)
    case None => Incomplete
    case Some((length, offset)) =>
      if length > MAX_FRAME_BYTES then Complete(Frame(CLOSE, []), |b|)
      else
        match DecodeBody(b[0] % 16, b[1] >= 128, b[offset..], length)
        case Incomplete => Incomplete
        case Complete(frame, n) => Complete(frame, offset + n)
  }

  function Pow256(w: nat): nat { if w == 0 then 1 else 256 * Pow256(w - 1) }

  lemma {:induction false} ReadWritten(n: nat, width: nat)
    requires n < Pow256(width)
    ensures ReadBigEndian(BigEndian(n, width)) == n
  {
    if width > 0 {
      ReadWritten(n / 256, width - 1);
      var b := BigEndian(n, width);
      assert b[..|b| - 1] == BigEndian(n / 256, width - 1);
    }
  }

  lemma {:induction false} WrittenRead(b: seq<Byte>)
    ensures BigEndian(ReadBigEndian(b), |b|) == b && ReadBigEndian(b) < Pow256(|b|)
  {
    if b != [] {
      WrittenRead(b[..|b| - 1]);
      assert b == b[..|b| - 1] + [b[|b| - 1]];
    }
  }

  lemma Widths()
    ensures Pow256(2) == 0x1_0000 && Pow256(8) == 0x1_0000_0000_0000_0000
  {
    assert Pow256(4) == 0x1_0000 * Pow256(2);
    assert Pow256(6) == 0x1_0000 * Pow256(4) && Pow256(8) == 0x1_0000 * Pow256(6);
  }

  /** The header in front of any bytes is read back as the payload length. */
  lemma HeaderOfWire(w: WireFrame, rest: seq<Byte>)
    requires w.Valid()
    ensures Header([w.first] + w.LengthBytes() + rest) == Some((|w.payload|, 1 + |w.LengthBytes()|))
  {
    var b := [w.first] + w.LengthBytes() + rest;
    var n := |w.payload|;
    Widths();
    hide BigEndian, ReadBigEndian, Pow256;
    match w.form
    case Short =>
    case Medium =>
      ReadWritten(n, 2);
      assert b[2..4] == BigEndian(n, 2);
    case Long =>
      ReadWritten(n, 8);
      assert b[2..10] == BigEndian(n, 8);
  }

  /** Bytes after the header: the masking key if there is one, and the payload. */
  function Body(w: WireFrame): seq<Byte>
    requires w.Valid()
  {
    match w.mask
    case None => w.payload
    case Some(key) => key + Masked(w.payload, key)
  }

  lemma BodyOfWire(w: WireFrame, rest: seq<Byte>)
    requires w.Valid()
    ensures DecodeBody(w.first % 16, w.mask.Some?, Body(w) + rest, |w.payload|) == Complete(w.Meaning(), |Body(w)|)
  {
    var tail := Body(w) + rest;
    match w.mask
    case None =>
      assert tail[..|w.payload|] == w.payload;
    case Some(key) =>
      hide Masked;
      assert tail[..4] == key && tail[4..4 + |w.payload|] == Masked(w.payload, key);
      MaskedTwice(w.payload, key);
  }

  lemma MaskBit(w: WireFrame)
    requires w.Valid()
    ensures |w.LengthBytes()| >= 1 && (w.LengthBytes()[0] >= 128 <==> w.mask.Some?)
    ensures w.Bytes() == [w.first] + w.LengthBytes() + Body(w)
  {
  }

  /** A frame of any length form, masked or not, is decoded to its opcode and payload, leaving the rest. */
  lemma DecodeWire(w: WireFrame, rest: seq<Byte>)
    requires w.Valid() && |w.payload| <= MAX_FRAME_BYTES
    ensures Decode(w.Bytes() + rest) == Complete(w.Meaning(), |w.Bytes()|)
  {
    hide Header, DecodeBody, Body, WireFrame.LengthBytes, WireFrame.Bytes, BigEndian;
    var b := w.Bytes() + rest;
    var head := [w.first] + w.LengthBytes();
    MaskBit(w);
    assert b == head + (Body(w) + rest);
    HeaderOfWire(w, Body(w) + rest);
    BodyOfWire(w, rest);
    assert b[|head|..] == Body(w) + rest;
    assert b[0] == w.first && b[1] == w.LengthBytes()[0];
  }

  /** A frame within the limit that has not arrived completely is never acted upon. */
  lemma ProperPrefixIncomplete(w: WireFrame, n: nat)
    requires w.Valid() && |w.payload| <= MAX_FRAME_BYTES && n < |w.Bytes()|
    ensures Decode(w.Bytes()[..n]) == Incomplete
  {
    var p, q := w.Bytes()[..n], w.Bytes()[n..];
    assert p + q == w.Bytes();
    assert p + q + [] == p + q;
    DecodeWire(w, []);
    if Decode(p).Complete? {
      HeaderStable(p, q);
      MaskBit(w);
      HeaderOfWire(w, Body(w));
      DecodeStable(p, q);
    }
  }

  lemma HeaderStable(b: seq<Byte>, more: seq<Byte>)
    requires Header(b).Some?
    ensures Header(b + more) == Header(b) && (b + more)[0] == b[0] && (b + more)[1] == b[1]
  {
    var c := b + more;
    if |b| >= 4 {
      assert c[2..4] == b[2..4];
    }
    if |b| >= 10 {
      assert c[2..10] == b[2..10];
    }
  }

  lemma BodyStable(opcode: nat, masked: bool, tail: seq<Byte>, more: seq<Byte>, length: nat)
    requires DecodeBody(opcode, masked, tail, length).Complete?
    ensures DecodeBody(opcode, masked, tail + more, length) == DecodeBody(opcode, masked, tail, length)
    ensures DecodeBody(opcode, masked, tail, length).bytesRead <= |tail|
  {
    var t := tail + more;
    if masked {
      assert t[4..4 + length] == tail[4..4 + length] && t[..4] == tail[..4];
    } else {
      assert t[..length] == tail[..length];
    }
  }

  /** Once a frame is decoded, later bytes do not change it; only an oversize frame takes them as well. */
  lemma DecodeStable(b: seq<Byte>, more: seq<Byte>)
    requires Decode(b).Complete?
    ensures Decode(b + more).Complete? && Decode(b + more).frame == Decode(b).frame
    ensures 0 < Decode(b).bytesRead <= |b|
    ensures Header(b).value.0 <= MAX_FRAME_BYTES ==> Decode(b + more) == Decode(b)
    ensures Header(b).value.0 > MAX_FRAME_BYTES ==> Decode(b).frame.opcode == CLOSE
  {
    hide Header, DecodeBody;
    HeaderStable(b, more);
    var (length, offset) := Header(b).value;
    if length <= MAX_FRAME_BYTES {
      BodyStable(b[0] % 16, b[1] >= 128, b[offset..], more, length);
      assert (b + more)[offset..] == b[offset..] + more;
    }
  }

  lemma LengthOf(w: WireFrame)
    requires w.Valid()
    ensures var m := if w.mask.Some? then 128 else 0;
            w.LengthBytes() ==
            match w.form
            case Short => [m + |w.payload|]
            case Medium => [m + 126] + BigEndian(|w.payload|, 2)
            case Long => [m + 127] + BigEndian(|w.payload|, 8)
  {
  }

  lemma HeaderIsWire(b: seq<Byte>, w: WireFrame)
    requires Header(b).Some? && w.Valid() && |w.payload| == Header(b).value.0
    requires w.mask.Some? <==> b[1] >= 128
    requires w.form == FormAt(Header(b).value.1)
    ensures w.LengthBytes() == b[1..Header(b).value.1]
  {
    var offset := Header(b).value.1;
    WrittenRead(b[2..offset]);
    hide BigEndian, ReadBigEndian;
    assert b[1..offset] == [b[1]] + b[2..offset];
    var high := if w.mask.Some? then 128 else 0;
    assert b[1] == high + b[1] % 128;
    LengthOf(w);
    hide WireFrame.LengthBytes;
    if b[1] % 128 == 126 {
      assert w.LengthBytes() == [b[1]] + BigEndian(|w.payload|, 2);
    } else if b[1] % 128 == 127 {
      assert w.LengthBytes() == [b[1]] + BigEndian(|w.payload|, 8);
    } else {
      assert b[2..2] == [] && w.LengthBytes() == [b[1]];
    }
  }

  /** The length form of a header that ends at `offset`. */
  function FormAt(offset: nat): Form { if offset == 2 then Short else if offset == 4 then Medium else Long }

  lemma WireOfBody(first: Byte, masked: bool, tail: seq<Byte>, length: nat, form: Form) returns (w: WireFrame)
    requires DecodeBody(first % 16, masked, tail, length).Complete?
    requires Fits(form, length)
    ensures w.Valid() && w.first == first && w.form == form && |w.payload| == length && w.mask.Some? == masked
    ensures var d := DecodeBody(first % 16, masked, tail, length);
            d.bytesRead <= |tail| && w.Meaning() == d.frame && Body(w) == tail[..d.bytesRead]
  {
    if masked {
      var data, key := tail[4..4 + length], tail[..4];
      w := WireFrame(first, Some(key), form, Masked(data, key));
      MaskedTwice(data, key);
      assert key + data == tail[..4 + length];
    } else {
      w := WireFrame(first, None, form, tail[..length]);
    }
  }

  /** Everything the decoder accepts within the limit is a frame of the wire format. */
  lemma AcceptedIsWire(b: seq<Byte>) returns (w: WireFrame)
    requires Decode(b).Complete? && Header(b).value.0 <= MAX_FRAME_BYTES
    ensures w.Valid() && w.Meaning() == Decode(b).frame
    ensures Decode(b).bytesRead == |w.Bytes()| <= |b| && b == w.Bytes() + b[|w.Bytes()|..]
  {
    var (length, offset) := Header(b).value;
    var form := FormAt(offset);
    HeaderBounds(b);
    hide Header, DecodeBody, Body, WireFrame.LengthBytes, WireFrame.Bytes, BigEndian;
    w := WireOfBody(b[0], b[1] >= 128, b[offset..], length, form);
    HeaderIsWire(b, w);
    MaskBit(w);
    Reassemble(b, offset, |Body(w)|);
  }

  lemma Reassemble(b: seq<Byte>, offset: nat, n: nat)
    requires 1 <= offset && offset + n <= |b|
    ensures [b[0]] + b[1..offset] + b[offset..][..n] == b[..offset + n]
    ensures b == b[..offset + n] + b[offset + n..]
  {
  }

  lemma HeaderBounds(b: seq<Byte>)
    requires Header(b).Some?
    ensures var (length, offset) := Header(b).value;
            && (offset == 2 || offset == 4 || offset == 10)
            && (offset == 2 ==> length < 126)
            && (offset == 4 ==> length < 0x1_0000)
            && (offset == 10 ==> length < 0x1_0000_0000_0000_0000)
  {
    Widths();
    WrittenRead(b[2..Header(b).value.1]);
  }

  /** decodeFrame: offsets, the two length reads, and the XOR over a copy of the payload. */
  lemma SliceOfTail(b: seq<Byte>, offset: nat, from: nat, to: nat)
    requires from <= to && offset + to <= |b|
    ensures b[offset..][from..to] == b[offset + from..offset + to]
  {
  }

  /** The header, by positions in the buffer; without one there is no frame. */
  lemma HeaderParts(b: seq<Byte>)
    requires |b| >= 2
    ensures Header(b) ==
              if b[1] % 128 == 126 then (if |b| < 4 then None else Some((ReadBigEndian(b[2..4]), 4)))
              else if b[1] % 128 == 127 then
                (if |b| < 10 then None
                 else Some((ReadBigEndian(b[2..6]) * TWO_32 + ReadBigEndian(b[6..10]), 10)))
              else Some(((b[1] % 128) as nat, 2))
    ensures Header(b).None? ==> Decode(b) == Incomplete
  {
    hide ReadBigEndian;
    if |b| >= 10 {
      HighLow(b[2..10]);
      assert b[2..10][..4] == b[2..6] && b[2..10][4..] == b[6..10];
    }
  }

  /** Behind the header, by positions in the buffer. */
  lemma DecodeBehind(b: seq<Byte>, length: nat, offset: nat)
    requires Header(b) == Some((length, offset))
    ensures length > MAX_FRAME_BYTES ==> Decode(b) == Complete(Frame(CLOSE, []), |b|)
    ensures length <= MAX_FRAME_BYTES ==>
              var start := offset + if b[1] >= 128 then 4 else 0;
              Decode(b) ==
                if |b| < start + length then Incomplete
                else
                  var data := b[start..start + length];
                  Complete(Frame(b[0] % 16, if b[1] >= 128 then Masked(data, b[offset..offset + 4]) else data),
                           start + length)
  {
    hide ReadBigEndian, Masked;
    var masked, tail := b[1] >= 128, b[offset..];
    if length <= MAX_FRAME_BYTES && |b| >= offset + (if masked then 4 else 0) + length {
      if masked {
        SliceOfTail(b, offset, 0, 4);
        SliceOfTail(b, offset, 4, 4 + length);
      } else {
        SliceOfTail(b, offset, 0, length);
      }
    }
    hide Header;
  }

  method DecodeFrame(buffer: seq<Byte>) returns (decoded: Decoded)
    ensures decoded == Decode(buffer)
  {
    if |buffer| < 2 {
      return Incomplete;
    }
    hide ReadBigEndian, Header, Decode, DecodeBody;
    HeaderParts(buffer);
    var opcode := buffer[0] % 16;
    var masked := buffer[1] >= 128;
    var length: nat := buffer[1] % 128;
    var offset := 2;
    if length == 126 {
      if |buffer| < offset + 2 {
        return Incomplete;
      }
      length := ReadBigEndian(buffer[offset..offset + 2]);
      offset := offset + 2;
    } else if length == 127 {
      if |buffer| < offset + 8 {
        return Incomplete;
      }
      var high := ReadBigEndian(buffer[offset..offset + 4]);
      var low := ReadBigEndian(buffer[offset + 4..offset + 8]);
      length := high * TWO_32 + low;
      offset := offset + 8;
    }
    assert Header(buffer) == Some((length, offset));
    DecodeBehind(buffer, length, offset);
    if length > MAX_FRAME_BYTES {
      return Complete(Frame(CLOSE, []), |buffer|);
    }
    var maskOffset := if masked then 4 else 0;
    if |buffer| < offset + maskOffset + length {
      return Incomplete;
    }
    var mask := buffer[offset..offset + maskOffset];
    offset := offset + maskOffset;
    var payload := buffer[offset..offset + length];
    if masked {
      payload := Unmask(payload, mask);
    }
    return Complete(Frame(opcode, payload), offset + length);
  }

  lemma HighLow(b: seq<Byte>)
    requires |b| == 8
    ensures ReadBigEndian(b) == ReadBigEndian(b[..4]) * TWO_32 + ReadBigEndian(b[4..])
  {
    ReadSplit(b[..4], b[4..]);
    assert b[..4] + b[4..] == b;
    assert Pow256(4) == TWO_32;
  }

  lemma {:induction false} ReadSplit(high: seq<Byte>, low: seq<Byte>)
    ensures ReadBigEndian(high + low) == ReadBigEndian(high) * Pow256(|low|) + ReadBigEndian(low)
  {
    if low == [] {
      assert high + low == high;
    } else {
      var front := low[..|low| - 1];
      ReadSplit(high, front);
      assert (high + low)[..|high + low| - 1] == high + front;
      assert ReadBigEndian(high) * Pow256(|low|) == 256 * (ReadBigEndian(high) * Pow256(|front|));
    }
  }

  /** The payload bytes XORed in place with the masking key. */
  method Unmask(data: seq<Byte>, mask: seq<Byte>) returns (r: seq<Byte>)
    requires |mask| == 4
    ensures r == Masked(data, mask)
  {
    var payload := new Byte[|data|](i requires 0 <= i < |data| => data[i]);
    for index := 0 to payload.Length
      invariant forall k | 0 <= k < index :: payload[k] == XorByte(data[k], mask[k % 4])
      invariant forall k | index <= k < payload.Length :: payload[k] == data[k]
    {
      payload[index] := XorByte(payload[index], mask[index % 4]);
    }
    r := payload[..];
  }

  // ---------- Sending ----------

  /** The frame sendFrame writes: a final, unmasked text frame in the shortest length form. */
  function Sent(payload: seq<Byte>): (w: WireFrame)
    requires |payload| <= MAX_FRAME_BYTES
    ensures w.Valid()
  {
    var form := if |payload| < 126 then Short else if |payload| < 0x1_0000 then Medium else Long;
    WireFrame(0x81, None, form, payload)
  }

  /** What is sent is a final frame (the first bit is FIN, the next three are clear) with a text, unmasked, with the
      shortest header there is for it. */
  lemma SentIs(payload: seq<Byte>, other: WireFrame)
    requires |payload| <= 262144
    ensures var w := Sent(payload);
            && w.first / 0x80 == 1 && w.first / 0x10 % 8 == 0 && w.first % 0x10 == 1
            && w.mask.None? && w.payload == payload
            && (other.Valid() && other.payload == payload ==> |w.Bytes()| <= |other.Bytes()|)
  {
    hide Masked, BigEndian;
    if other.Valid() && other.payload == payload {
      LengthOf(other);
      LengthOf(Sent(payload));
    }
  }

  method SendFrame(payload: seq<Byte>) returns (written: seq<Byte>)
    ensures |payload| > MAX_FRAME_BYTES ==> written == []
    ensures |payload| <= MAX_FRAME_BYTES ==> written == Sent(payload).Bytes()
  {
    var n := |payload|;
    if n > MAX_FRAME_BYTES {
      return [];
    }
    var header: seq<Byte>;
    if n < 126 {
      header := [0x81, n];
    } else if n < 65536 {
      header := [0x81, 126] + BigEndian(n, 2);
    } else {
      HighZero(n);
      header := [0x81, 127] + BigEndian(0, 4) + BigEndian(n, 4);
    }
    assert header == [0x81] + Sent(payload).LengthBytes();
    written := header + payload;
  }

  lemma HighZero(n: nat)
    requires n < TWO_32
    ensures BigEndian(n, 8) == BigEndian(0, 4) + BigEndian(n, 4)
  {
    var b := BigEndian(0, 4) + BigEndian(n, 4);
    assert Pow256(4) == TWO_32;
    ReadWritten(n, 4);
    ReadWritten(0, 4);
    ReadSplit(BigEndian(0, 4), BigEndian(n, 4));
    WrittenRead(b);
  }
}
