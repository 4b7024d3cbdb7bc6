/** Unmasked text frames as the server writes them, and their decoding by section 5.2 of RFC 6455. */
module WebSocketFrames {
  import opened Basics

  const TWO_63: nat := 0x8000_0000_0000_0000

  // ---------------------------------------------------------------- big-endian numbers

  function BigEndian(n: nat, width: nat): (s: seq<Byte>)
    ensures |s| == width
  {
    if width == 0 then [] else BigEndian(n / 256, width - 1) + [n % 256]
  }

  function Number(s: seq<Byte>): nat {
    if s == [] then 0 else 256 * Number(s[..|s| - 1]) + (s[|s| - 1] as int)
  }

  function Pow256(width: nat): nat {
    if width == 0 then 1 else 256 * Pow256(width - 1)
  }

  lemma {:induction false} NumberOfBigEndian(n: nat, width: nat)
    requires n < Pow256(width)
    ensures Number(BigEndian(n, width)) == n
  {
    if width > 0 {
      NumberOfBigEndian(n / 256, width - 1);
    }
  }

  // ---------------------------------------------------------------- frames

  function Header(length: nat): (h: seq<Byte>)
    ensures |h| == if length <= 125 then 2 else if length <= 65535 then 4 else 10
  {
    [0x81]
    + if length <= 125 then [length]
      else if length <= 65535 then [126] + BigEndian(length, 2)
      else [127] + BigEndian(length, 8)
  }

  function Frame(data: seq<Byte>): (f: seq<Byte>)
    ensures |f| >= 2
  {
    Header(|data|) + data
  }

  /** The frames of the messages, one after the other. */
  function Stream(messages: seq<seq<Byte>>): seq<Byte> {
    if messages == [] then [] else Frame(messages[0]) + Stream(messages[1..])
  }

  // ---------------------------------------------------------------- a strict receiver

  datatype Received =
    | Message(payload: seq<Byte>, rest: seq<Byte>)
    | Incomplete
    | Malformed

  /** Number of length bytes after the second byte. */
  function ExtendedWidth(code: Byte): nat {
    if code == 126 then 2 else if code == 127 then 8 else 0
  }

  /** The payload length, which must be in the shortest form and below 2^63. */
  function PayloadLength(code: Byte, extended: seq<Byte>): (n: int)
    requires |extended| == ExtendedWidth(code)
    ensures n >= -1
  {
    if code >= 128 then -1
    else if code <= 125 then code
    else
      var n := Number(extended);
      if code == 126 then (if n <= 125 then -1 else n)
      else if n <= 65535 || n >= TWO_63 then -1 else n
  }

  /** The next frame of a stream: a final, unmasked text frame. */
  function Receive(s: seq<Byte>): Received {
    if |s| >= 1 && s[0] != 0x81 then Malformed
    else if |s| < 2 then Incomplete
    else
      var width := ExtendedWidth(s[1]);
      if |s| < 2 + width then Incomplete
      else
        var n := PayloadLength(s[1], s[2..2 + width]);
        if n < 0 then Malformed
        else if |s| < 2 + width + n then Incomplete
        else Message(s[2 + width..2 + width + n], s[2 + width + n..])
  }

  datatype Transcript = Transcript(messages: seq<seq<Byte>>, rest: seq<Byte>)

  /** All frames that can be received, and the bytes from the first one that cannot. */
  function ReceiveAll(s: seq<Byte>): Transcript
    decreases |s|
  {
    match Receive(s)
    case Message(payload, rest) => var t := ReceiveAll(rest); Transcript([payload] + t.messages, t.rest)
    case _ => Transcript([], s)
  }

  // ---------------------------------------------------------------- the writer

  lemma Divisions(n: nat)
    ensures n / 256 / 256 == n / 0x1_0000
    ensures n / 0x1_0000 / 256 == n / 0x100_0000
    ensures n / 0x100_0000 / 256 == n / 0x1_0000_0000
    ensures n / 0x1_0000_0000 / 256 == n / 0x100_0000_0000
    ensures n / 0x100_0000_0000 / 256 == n / 0x1_0000_0000_0000
    ensures n / 0x1_0000_0000_0000 / 256 == n / 0x100_0000_0000_0000
  {
  }

  lemma EightBytes(n: nat)
    ensures BigEndian(n, 8) ==
      [n / 0x100_0000_0000_0000 % 256, n / 0x1_0000_0000_0000 % 256, n / 0x100_0000_0000 % 256, n / 0x1_0000_0000 % 256,
       n / 0x100_0000 % 256, n / 0x1_0000 % 256, n / 256 % 256, n % 256]
  {
    Divisions(n);
    assert BigEndian(n / 0x100_0000_0000_0000, 1) == [n / 0x100_0000_0000_0000 % 256];
    assert BigEndian(n / 0x1_0000_0000_0000, 2) ==
      BigEndian(n / 0x100_0000_0000_0000, 1) + [n / 0x1_0000_0000_0000 % 256];
    assert BigEndian(n / 0x100_0000_0000, 3) == BigEndian(n / 0x1_0000_0000_0000, 2) + [n / 0x100_0000_0000 % 256];
    assert BigEndian(n / 0x1_0000_0000, 4) == BigEndian(n / 0x100_0000_0000, 3) + [n / 0x1_0000_0000 % 256];
    assert BigEndian(n / 0x100_0000, 5) == BigEndian(n / 0x1_0000_0000, 4) + [n / 0x100_0000 % 256];
    assert BigEndian(n / 0x1_0000, 6) == BigEndian(n / 0x100_0000, 5) + [n / 0x1_0000 % 256];
    assert BigEndian(n / 256, 7) == BigEndian(n / 0x1_0000, 6) + [n / 256 % 256];
  }

  lemma TwoBytes(n: nat)
    ensures BigEndian(n, 2) == [n / 256 % 256, n % 256]
  {
    assert BigEndian(n / 256, 1) == [n / 256 % 256];
  }

  method BuildHeader(length: nat) returns (header: seq<Byte>)
    ensures header == Header(length)
  {
    header := [];
    header := header + [0x81];
    if length <= 125 {
      header := header + [length];
    } else if length <= 65535 {
      header := header + [126, length / 256 % 256, length % 256];
      TwoBytes(length);
    } else {
      header := header + [127,
        length / 0x100_0000_0000_0000 % 256, length / 0x1_0000_0000_0000 % 256,
        length / 0x100_0000_0000 % 256, length / 0x1_0000_0000 % 256,
        length / 0x100_0000 % 256, length / 0x1_0000 % 256,
        length / 256 % 256, length % 256];
      EightBytes(length);
    }
  }

  class WSConnection {
    var stream: seq<Byte>                   // bytes handed to the connection
    ghost var messages: seq<seq<Byte>>      // payloads in the order in which they took the lock

    ghost predicate Valid()
      reads this
    {
      stream == Stream(messages) && forall m :: m in messages ==> |m| < TWO_63
    }

    constructor ()
      ensures Valid() && messages == []
    {
      stream, messages := [], [];
    }

    method Write(bytes: seq<Byte>)
      modifies `stream
      ensures stream == old(stream) + bytes
    {
      stream := stream + bytes;
    }

    method WriteTextFrame(data: seq<Byte>)
      requires Valid() && |data| < TWO_63
      modifies this
      ensures Valid() && messages == old(messages) + [data]
      ensures stream == old(stream) + Frame(data)
    {
      var header := BuildHeader(|data|);
      Write(header);
      Write(data);
      StreamAppend(messages, data);
      messages := messages + [data];
    }
  }

  lemma {:induction false} StreamAppend(messages: seq<seq<Byte>>, data: seq<Byte>)
    ensures Stream(messages + [data]) == Stream(messages) + Frame(data)
  {
    if messages == [] {
      assert Stream([data]) == Frame(data) + Stream([]);
    } else {
      StreamAppend(messages[1..], data);
      assert (messages + [data])[1..] == messages[1..] + [data];
    }
  }

  // ---------------------------------------------------------------- frames delimit themselves

  lemma HeaderIsRead(length: nat)
    requires length < TWO_63
    ensures var h := Header(length); var width := ExtendedWidth(h[1]);
      h[0] == 0x81 && |h| == 2 + width && PayloadLength(h[1], h[2..]) == length
  {
    var h := Header(length);
    if 125 < length <= 65535 {
      assert h[2..] == BigEndian(length, 2);
      assert Pow256(2) == 65536;
      NumberOfBigEndian(length, 2);
    } else if length > 65535 {
      assert h[2..] == BigEndian(length, 8);
      assert Pow256(4) == 0x1_0000_0000;
      assert Pow256(8) == 0x1_0000_0000_0000_0000;
      NumberOfBigEndian(length, 8);
    }
  }

  /** A frame is received with exactly its payload, whatever follows it. */
  lemma FrameIsReceived(data: seq<Byte>, tail: seq<Byte>)
    requires |data| < TWO_63
    ensures Receive(Frame(data) + tail) == Message(data, tail)
  {
    HeaderIsRead(|data|);
    var h, s := Header(|data|), Frame(data) + tail;
    assert s[0] == h[0] && s[1] == h[1] && s[2..|h|] == h[2..];
    assert s[|h|..|h| + |data|] == data && s[|h| + |data|..] == tail;
  }

  /** Nothing is received before the last byte of the frame has arrived. */
  lemma PartIsIncomplete(data: seq<Byte>, t: nat)
    requires |data| < TWO_63 && t < |Frame(data)|
    ensures Receive(Frame(data)[..t]) == Incomplete
  {
    HeaderIsRead(|data|);
    var h, s := Header(|data|), Frame(data)[..t];
    if t >= |h| {
      assert Frame(data)[..|h|] == h && s[..|h|] == h;
      assert s[1] == s[..|h|][1] && s[2..|h|] == s[..|h|][2..];
    } else if t >= 2 {
      assert s[1] == h[1];
    }
  }

  lemma ReceiveOneMore(data: seq<Byte>, tail: seq<Byte>)
    requires |data| < TWO_63
    ensures ReceiveAll(Frame(data) + tail) == Transcript([data] + ReceiveAll(tail).messages, ReceiveAll(tail).rest)
  {
    FrameIsReceived(data, tail);
  }

  lemma NothingYet(data: seq<Byte>, tail: seq<Byte>, t: nat)
    requires |data| < TWO_63 && t < |Frame(data)|
    ensures ReceiveAll((Frame(data) + tail)[..t]).messages == []
  {
    PartIsIncomplete(data, t);
    assert (Frame(data) + tail)[..t] == Frame(data)[..t];
  }

  lemma OneAndMore(data: seq<Byte>, tail: seq<Byte>, t: nat)
    requires |data| < TWO_63 && |Frame(data)| <= t <= |Frame(data)| + |tail|
    ensures ReceiveAll((Frame(data) + tail)[..t]).messages == [data] + ReceiveAll(tail[..t - |Frame(data)|]).messages
  {
    ReceiveOneMore(data, tail[..t - |Frame(data)|]);
    assert (Frame(data) + tail)[..t] == Frame(data) + tail[..t - |Frame(data)|];
  }

  /** Number of frames that lie within the first t bytes. */
  function WholeFrames(messages: seq<seq<Byte>>, t: nat): (k: nat)
    ensures k <= |messages|
  {
    if messages == [] || t < |Frame(messages[0])| then 0
    else 1 + WholeFrames(messages[1..], t - |Frame(messages[0])|)
  }

  /** After any number of bytes exactly the messages whose frames are complete have been received, in order. */
  lemma {:induction false} PrefixIsReceived(messages: seq<seq<Byte>>, t: nat)
    requires forall m :: m in messages ==> |m| < TWO_63
    requires t <= |Stream(messages)|
    ensures ReceiveAll(Stream(messages)[..t]).messages == messages[..WholeFrames(messages, t)]
  {
    if messages != [] {
      var size, tail := |Frame(messages[0])|, Stream(messages[1..]);
      if t < size {
        NothingYet(messages[0], tail, t);
      } else {
        PrefixIsReceived(messages[1..], t - size);
        OneAndMore(messages[0], tail, t);
        assert messages[..WholeFrames(messages, t)] ==
          [messages[0]] + messages[1..][..WholeFrames(messages[1..], t - size)];
      }
    }
  }

  lemma {:induction false} WholeStreamIsReceived(messages: seq<seq<Byte>>)
    requires forall m :: m in messages ==> |m| < TWO_63
    ensures ReceiveAll(Stream(messages)) == Transcript(messages, [])
  {
    if messages != [] {
      WholeStreamIsReceived(messages[1..]);
      ReceiveOneMore(messages[0], Stream(messages[1..]));
      assert messages == [messages[0]] + messages[1..];
    }
  }

  /** The receiver of a connection gets the messages in lock order and nothing else. */
  lemma ConnectionDelivers(c: WSConnection)
    requires c.Valid()
    ensures ReceiveAll(c.stream) == Transcript(c.messages, [])
  {
    WholeStreamIsReceived(c.messages);
  }
}
