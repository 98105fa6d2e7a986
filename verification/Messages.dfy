// message/putMessage.go, message/getRspMessage.go: the two binary messages.
module Messages {
  import LE = LittleEndian
  import opened KeyedBlob
  import opened Encoding
  import opened Results

  const MSG_PUT := 14
  const MSG_GET_RSP := 16

  datatype WireMessage = WireMessage(code: nat, data: seq<byte>)

  const EXPIRY_SIZE := 8

  function PutBytes(key: Key, expiry: nat, data: seq<byte>): seq<byte> {
    Pack(LE.Put(expiry, EXPIRY_SIZE), key, data)
  }

  function GetRspBytes(pendingKey: Key, data: seq<byte>): seq<byte> {
    Pack([], pendingKey, data)
  }

  class PutMessage {
    var code: nat
    var key: Key
    var expiry: nat
    var data: seq<byte>

    constructor (key: Key, expiry: nat, data: seq<byte>)
      ensures this.key == key && this.expiry == expiry && this.data == data
    {
      this.code, this.key, this.expiry, this.data := 0, key, expiry, data;
    }

    method Serialize() returns (msg: WireMessage)
      ensures msg == WireMessage(MSG_PUT, PutBytes(key, expiry, data)) && msg.code == 14
    {
      hide LE.Put;
      var keyLen := |key|;
      var b := new byte[keyLen + |data| + 2 + 8](_ => 0);
      CopyInto(b, 0, LE.Put(expiry, 8));
      CopyInto(b, 8, LE.Put(keyLen, 2));
      CopyInto(b, 8 + 2, key);
      CopyInto(b, 8 + 2 + keyLen, data);
      msg := WireMessage(MSG_PUT, b[..]);
      assert b[..] == b[..8 + 2 + keyLen + |data|];
    }

    // Go panics when the announced key does not lie inside the message.
    method DeSerialize(msg: WireMessage)
      requires EXPIRY_SIZE + KEY_SIZE_IN_BYTES <= |msg.data|
      requires ReadKey(msg.data, EXPIRY_SIZE).Some?
      modifies this
      ensures code == MSG_PUT && expiry == LE.Get(msg.data[..EXPIRY_SIZE])
      ensures Some(key) == ReadKey(msg.data, EXPIRY_SIZE)
      ensures Some(data) == ReadValue(msg.data, EXPIRY_SIZE)
    {
      code := MSG_PUT;
      expiry := LE.Get(msg.data[..8]);
      var end := KeyEnd(msg.data, EXPIRY_SIZE);
      key := msg.data[8 + 2..end];
      data := msg.data[end..];
    }
  }

  class GetRspMessage {
    var code: nat
    var pendingKey: Key
    var data: seq<byte>

    constructor (pendingKey: Key, data: seq<byte>)
      ensures this.pendingKey == pendingKey && this.data == data
    {
      this.code, this.pendingKey, this.data := 0, pendingKey, data;
    }

    method Serialize() returns (msg: WireMessage)
      ensures msg == WireMessage(MSG_GET_RSP, GetRspBytes(pendingKey, data)) && msg.code == 16
    {
      hide LE.Put;
      var keyLen := |pendingKey|;
      var b := new byte[keyLen + |data| + 2](_ => 0);
      CopyInto(b, 0, LE.Put(keyLen, 2));
      CopyInto(b, 2, pendingKey);
      CopyInto(b, 2 + keyLen, data);
      msg := WireMessage(MSG_GET_RSP, b[..]);
      assert b[..] == b[..2 + keyLen + |data|];
    }

    method DeSerialize(msg: WireMessage)
      requires KEY_SIZE_IN_BYTES <= |msg.data|
      requires ReadKey(msg.data, 0).Some?
      modifies this
      ensures code == MSG_GET_RSP
      ensures Some(pendingKey) == ReadKey(msg.data, 0)
      ensures Some(data) == ReadValue(msg.data, 0)
    {
      code := MSG_GET_RSP;
      var end := KeyEnd(msg.data, 0);
      pendingKey := msg.data[2..end];
      data := msg.data[end..];
    }
  }

  const LONGEST_PUT_KEY := 65525
  const LONGEST_PENDING_KEY := 65533

  // A PUT reads back exactly when its key has at most 65525 bytes.
  lemma PutReadBack(key: Key, expiry: nat, data: seq<byte>)
    requires IsUint64(expiry)
    ensures var b := PutBytes(key, expiry, data);
            && LE.Get(b[..EXPIRY_SIZE]) == expiry
            && (ReadKey(b, EXPIRY_SIZE) == Some(key) <==> |key| <= LONGEST_PUT_KEY)
            && (ReadValue(b, EXPIRY_SIZE) == Some(data) <==> |key| <= LONGEST_PUT_KEY)
  {
    hide Pack, LE.Put, LE.Get, ReadKey, ReadValue;
    ReadBack(LE.Put(expiry, EXPIRY_SIZE), key, data);
    PackParts(LE.Put(expiry, EXPIRY_SIZE), key, data);
    LE.Widths();
    LE.FitsWidth(expiry, EXPIRY_SIZE);
  }

  // A GET response reads back exactly when its pending key has at most 65533.
  lemma GetRspReadBack(pendingKey: Key, data: seq<byte>)
    ensures var b := GetRspBytes(pendingKey, data);
            && (ReadKey(b, 0) == Some(pendingKey) <==> |pendingKey| <= LONGEST_PENDING_KEY)
            && (ReadValue(b, 0) == Some(data) <==> |pendingKey| <= LONGEST_PENDING_KEY)
  {
    ReadBack([], pendingKey, data);
  }

  // The bytes of a PUT: expiry and key length, least significant byte first,
  // then the key, then the data.
  lemma PutLayout(key: Key, expiry: nat, data: seq<byte>)
    ensures var b := PutBytes(key, expiry, data);
            && |b| == 10 + |key| + |data|
            && (forall i | 0 <= i < 8 :: b[i] as nat == expiry / LE.Pow256(i) % 256)
            && b[8] as nat == |key| % 256 && b[9] as nat == |key| / 256 % 256
            && b[10..10 + |key|] == key && b[10 + |key|..] == data
  {
    hide Pack, LE.Put;
    PackParts(LE.Put(expiry, EXPIRY_SIZE), key, data);
    PackDigits(LE.Put(expiry, EXPIRY_SIZE), key, data);
    forall i | 0 <= i < 8 ensures PutBytes(key, expiry, data)[i] as nat == expiry / LE.Pow256(i) % 256 {
      LE.PutAt(expiry, EXPIRY_SIZE, i);
      assert PutBytes(key, expiry, data)[i] == PutBytes(key, expiry, data)[..8][i];
    }
  }

  // The bytes of a GET response likewise, without an expiry.
  lemma GetRspLayout(pendingKey: Key, data: seq<byte>)
    ensures var b := GetRspBytes(pendingKey, data);
            && |b| == 2 + |pendingKey| + |data|
            && b[0] as nat == |pendingKey| % 256 && b[1] as nat == |pendingKey| / 256 % 256
            && b[2..2 + |pendingKey|] == pendingKey && b[2 + |pendingKey|..] == data
  {
    hide Pack, LE.Put;
    PackParts([], pendingKey, data);
    PackDigits([], pendingKey, data);
  }

  // The objects themselves: what one side serializes the other side reads.
  method SendPut(key: Key, expiry: nat, data: seq<byte>) returns (k: Key, e: nat, d: seq<byte>)
    requires IsUint64(expiry) && |key| <= LONGEST_PUT_KEY
    ensures k == key && e == expiry && d == data
  {
    hide Pack, LE.Put, LE.Get, ReadKey, ReadValue;
    PutReadBack(key, expiry, data);
    var out := new PutMessage(key, expiry, data);
    var msg := out.Serialize();
    var incoming := new PutMessage([], 0, []);
    incoming.DeSerialize(msg);
    return incoming.key, incoming.expiry, incoming.data;
  }

  method SendGetRsp(pendingKey: Key, data: seq<byte>) returns (k: Key, d: seq<byte>)
    requires |pendingKey| <= LONGEST_PENDING_KEY
    ensures k == pendingKey && d == data
  {
    hide Pack, LE.Put, LE.Get, ReadKey, ReadValue;
    GetRspReadBack(pendingKey, data);
    var out := new GetRspMessage(pendingKey, data);
    var msg := out.Serialize();
    var incoming := new GetRspMessage([], []);
    incoming.DeSerialize(msg);
    return incoming.pendingKey, incoming.data;
  }
}

// Framing on a connection: networkSender and networkConsumer of
// Cluster/remoteNode.go.
module Framing {
  import LE = LittleEndian
  import opened KeyedBlob
  import opened Encoding
  import opened Messages

  const FRAME_HEADER := 6

  function Frame(m: WireMessage): (f: seq<byte>)
    ensures |f| == FRAME_HEADER + |m.data|
  {
    LE.Put(|m.data| + 2, 4) + LE.Put(m.code, 2) + m.data
  }

  function Frames(msgs: seq<WireMessage>): seq<byte> {
    if msgs == [] then [] else Frame(msgs[0]) + Frames(msgs[1..])
  }

  // Length and code survive their 32 and 16 bits.
  ghost predicate Framable(m: WireMessage) {
    |m.data| + 2 < 0x1_0000_0000 && m.code < 0x1_0000
  }

  // Payload length announced by a header, in 32-bit arithmetic.
  function DataLength(stream: seq<byte>): nat
    requires FRAME_HEADER <= |stream|
  {
    (LE.Get(stream[..4]) - 2) % 0x1_0000_0000
  }

  datatype Parsed = Parsed(msgs: seq<WireMessage>, rest: seq<byte>)

  // Whole messages at the front of a byte stream, and the bytes after them.
  function Parse(stream: seq<byte>): Parsed
    decreases |stream|
  {
    if |stream| < FRAME_HEADER then Parsed([], stream)
    else
      var n := DataLength(stream);
      if |stream| < FRAME_HEADER + n then Parsed([], stream)
      else
        var m := WireMessage(LE.Get(stream[4..6]), stream[FRAME_HEADER..FRAME_HEADER + n]);
        var p := Parse(stream[FRAME_HEADER + n..]);
        Parsed([m] + p.msgs, p.rest)
  }

  // networkSender, for a queue of messages.
  method NetworkSender(msgs: seq<WireMessage>) returns (sent: seq<byte>)
    ensures sent == Frames(msgs)
  {
    sent := [];
    for i := 0 to |msgs|
      invariant sent + Frames(msgs[i..]) == Frames(msgs)
    {
      hide LE.Put;
      var msg := msgs[i];
      var data := new byte[6 + |msg.data|](_ => 0);
      CopyInto(data, 0, LE.Put(|msg.data| + 2, 4));
      CopyInto(data, 4, LE.Put(msg.code, 2));
      CopyInto(data, 6, msg.data);
      assert data[..] == data[..6 + |msg.data|] == Frame(msg);
      assert msgs[i..][0] == msg && msgs[i..][1..] == msgs[i + 1..];
      assert sent + (Frame(msg) + Frames(msgs[i + 1..])) == (sent + Frame(msg)) + Frames(msgs[i + 1..]);
      sent := sent + data[..];
    }
    assert Frames(msgs[|msgs|..]) == [];
  }

  // networkConsumer, on the bytes received so far.
  method NetworkConsumer(stream: seq<byte>) returns (msgs: seq<WireMessage>, rest: seq<byte>)
    ensures Parsed(msgs, rest) == Parse(stream)
  {
    msgs, rest := [], stream;
    while |rest| >= FRAME_HEADER
      invariant Parse(stream) == Parsed(msgs + Parse(rest).msgs, Parse(rest).rest)
      decreases |rest|
    {
      hide LE.Get;
      var dataLength := DataLength(rest);
      var msgCode := LE.Get(rest[4..6]);
      if |rest| < FRAME_HEADER + dataLength {
        break;
      }
      var m := WireMessage(msgCode, rest[FRAME_HEADER..FRAME_HEADER + dataLength]);
      assert forall later :: msgs + ([m] + later) == (msgs + [m]) + later;
      msgs, rest := msgs + [m], rest[FRAME_HEADER + dataLength..];
    }
  }

  lemma FrameParts(m: WireMessage, tail: seq<byte>)
    ensures var s := Frame(m) + tail;
            && s[..4] == LE.Put(|m.data| + 2, 4)
            && s[4..6] == LE.Put(m.code, 2)
            && s[6..6 + |m.data|] == m.data
            && s[6 + |m.data|..] == tail
  {
    hide LE.Put;
    var a, b := LE.Put(|m.data| + 2, 4), LE.Put(m.code, 2);
    FourParts(a, b, m.data, tail);
    assert Frame(m) + tail == a + b + m.data + tail;
  }

  // One frame is read back whole, whatever follows it.
  lemma ParseFrame(m: WireMessage, tail: seq<byte>)
    requires Framable(m)
    ensures Parse(Frame(m) + tail) == Parsed([m] + Parse(tail).msgs, Parse(tail).rest)
  {
    var s := Frame(m) + tail;
    FrameParts(m, tail);
    LE.Widths();
    LE.FitsWidth(|m.data| + 2, 4);
    LE.FitsWidth(m.code, 2);
    hide LE.Put, LE.Get, Frame, LE.Pow256;
    assert DataLength(s) == |m.data|;
  }

  // Any sequence of messages, framed and concatenated, is decoded to exactly
  // that sequence, followed by what the remaining bytes decode to.
  lemma {:induction false} ParseFrames(msgs: seq<WireMessage>, tail: seq<byte>)
    requires forall m | m in msgs :: Framable(m)
    ensures Parse(Frames(msgs) + tail) == Parsed(msgs + Parse(tail).msgs, Parse(tail).rest)
  {
    hide Parse, Frame, Framable;
    if msgs == [] {
      assert Frames(msgs) + tail == tail;
      assert msgs + Parse(tail).msgs == Parse(tail).msgs;
    } else {
      var later := Frames(msgs[1..]) + tail;
      assert Frames(msgs) + tail == Frame(msgs[0]) + later;
      ParseFrame(msgs[0], later);
      ParseFrames(msgs[1..], tail);
      assert [msgs[0]] + (msgs[1..] + Parse(tail).msgs) == msgs + Parse(tail).msgs;
    }
  }

  lemma LengthBack(length: nat)
    requires length < 0x1_0000_0000
    ensures ((length - 2) % 0x1_0000_0000 + 2) % 0x1_0000_0000 == length
  {
  }

  // Four length bytes, put again from the payload length they announce.
  lemma HeaderBack(stream: seq<byte>)
    requires FRAME_HEADER <= |stream|
    ensures LE.Put(DataLength(stream) + 2, 4) == stream[..4]
    ensures LE.Put(LE.Get(stream[4..6]), 2) == stream[4..6]
  {
    LE.PutGet(stream[..4]);
    LE.PutGet(stream[4..6]);
    LE.Widths();
    LE.PutMod(DataLength(stream) + 2, 4);
    hide LE.Put, LE.Get, LE.Pow256;
    LengthBack(LE.Get(stream[..4]));
  }

  lemma ThreeSlices(s: seq<byte>, a: nat, b: nat, c: nat)
    requires a <= b <= c <= |s|
    ensures s[..c] == s[..a] + s[a..b] + s[b..c] && s == s[..c] + s[c..]
  {
  }

  // The message at the front of a stream that holds a whole frame.
  function Front(stream: seq<byte>): WireMessage
    requires FRAME_HEADER <= |stream| && FRAME_HEADER + DataLength(stream) <= |stream|
  {
    WireMessage(LE.Get(stream[4..6]), stream[FRAME_HEADER..FRAME_HEADER + DataLength(stream)])
  }

  // It gives that frame again.
  lemma Reframed(stream: seq<byte>)
    requires FRAME_HEADER <= |stream| && FRAME_HEADER + DataLength(stream) <= |stream|
    ensures Frame(Front(stream)) == stream[..FRAME_HEADER + DataLength(stream)]
  {
    HeaderBack(stream);
    hide LE.Put, LE.Get, DataLength;
    ThreeSlices(stream, 4, FRAME_HEADER, FRAME_HEADER + DataLength(stream));
  }

  // No whole frame is left at the front of a stream.
  ghost predicate Unfinished(stream: seq<byte>) {
    |stream| < FRAME_HEADER || |stream| < FRAME_HEADER + DataLength(stream)
  }

  // Whatever arrives, malformed or not: the messages taken from it, framed
  // again, and the rest are the very stream, and the rest holds no whole frame.
  lemma {:induction false} ParseExact(stream: seq<byte>)
    ensures Frames(Parse(stream).msgs) + Parse(stream).rest == stream && Unfinished(Parse(stream).rest)
    decreases |stream|
  {
    if Unfinished(stream) {
      assert Frames([]) + stream == stream;
    } else {
      var later := stream[FRAME_HEADER + DataLength(stream)..];
      Reframed(stream);
      ParseExact(later);
      OneMessage(stream);
      hide Parse, Frame, DataLength, Front;
      FramesFirst(Front(stream), Parse(later).msgs, Parse(later).rest);
      assert stream == stream[..FRAME_HEADER + DataLength(stream)] + later;
    }
  }

  lemma OneMessage(stream: seq<byte>)
    requires !Unfinished(stream)
    ensures var p := Parse(stream[FRAME_HEADER + DataLength(stream)..]);
            Parse(stream) == Parsed([Front(stream)] + p.msgs, p.rest)
  {
    hide LE.Get;
  }

  lemma FramesFirst(m: WireMessage, msgs: seq<WireMessage>, rest: seq<byte>)
    ensures Frames([m] + msgs) + rest == Frame(m) + (Frames(msgs) + rest)
  {
    hide Frame;
    assert ([m] + msgs)[1..] == msgs;
  }

  // A header that announces less than the code it comes with waits for 4 GiB.
  lemma ShortLengthWaits(stream: seq<byte>)
    requires FRAME_HEADER <= |stream| < 0x1_0000_0000 && LE.Get(stream[..4]) < 2
    ensures Parse(stream) == Parsed([], stream)
  {
    hide LE.Get;
  }

  // From end to end over one connection, cut anywhere in a further frame.
  method Transfer(msgs: seq<WireMessage>, next: WireMessage, cut: nat) returns (got: seq<WireMessage>)
    requires forall m | m in msgs :: Framable(m)
    requires Framable(next) && cut < |Frame(next)|
    ensures got == msgs
  {
    hide Parse, Frame, Framable;
    var sent := NetworkSender(msgs);
    var rest: seq<byte>;
    got, rest := NetworkConsumer(sent + Frame(next)[..cut]);
    ParseFrames(msgs, Frame(next)[..cut]);
    PartialFrame(next, cut);
  }

  lemma PartialFrame(m: WireMessage, cut: nat)
    requires Framable(m) && cut < |Frame(m)|
    ensures Parse(Frame(m)[..cut]) == Parsed([], Frame(m)[..cut])
  {
    var f := Frame(m);
    if FRAME_HEADER <= cut {
      FrameParts(m, []);
      assert f + [] == f;
      assert f[..cut][..4] == f[..4];
      LE.Widths();
      LE.FitsWidth(|m.data| + 2, 4);
      hide LE.Put, LE.Get, Frame, LE.Pow256;
      assert DataLength(f[..cut]) == |m.data|;
    }
  }
}
