/**
 * Framing of the write-ahead log: four bytes of length, the message, four bytes of checksum. Decoding
 * gives back what was encoded, and of a log cut off anywhere exactly the messages that are whole.
 */
module WalFrames {
  import opened Types
  import opened Bits

  const MAX_MSG_SIZE := 10 * 1024 * 1024
  const UINT32: nat := 0x1_0000_0000

  datatype MessageType = EndHeight | OtherMessage(code: int)

  datatype Message = Message(mtype: MessageType, height: int, round: int, data: Bytes)

  /** The serializer of messages and the checksum. */
  datatype Codec = Codec(marshal: Message -> Bytes, unmarshal: Bytes -> Option<Message>, crc: Bytes -> nat)

  /** Messages come back from their bytes, and checksums have 32 bits. */
  ghost predicate Faithful(c: Codec) {
    (forall m :: c.unmarshal(c.marshal(m)) == Some(m)) && forall x :: c.crc(x) < UINT32
  }

  // ----- Four bytes, most significant first -----

  function Reversed(bytes: Bytes): (r: Bytes)
    ensures |r| == |bytes|
  {
    seq(|bytes|, i requires 0 <= i < |bytes| => bytes[|bytes| - 1 - i])
  }

  function PutUint32(x: nat): (bytes: Bytes)
    ensures |bytes| == 4
  {
    Reversed(ToLittleEndian(x, 4))
  }

  function Uint32(bytes: Bytes): nat { FromLittleEndian(Reversed(bytes)) }

  lemma Uint32RoundTrip(x: nat)
    requires x < UINT32
    ensures Uint32(PutUint32(x)) == x
  {
    assert Reversed(Reversed(ToLittleEndian(x, 4))) == ToLittleEndian(x, 4);
    FourBytes();
    LittleEndianRoundTrip(x, 4);
  }

  lemma FourBytes()
    ensures Pow256(4) == UINT32
  {
    assert Pow256(2) == 256 * Pow256(1) && Pow256(4) == 256 * Pow256(3) && Pow256(3) == 256 * Pow256(2);
  }

  // ----- One frame -----

  function Frame(c: Codec, m: Message): (f: Bytes)
    ensures |f| == 8 + |c.marshal(m)|
  {
    var data := c.marshal(m);
    PutUint32(|data| % UINT32) + data + PutUint32(c.crc(data) % UINT32)
  }

  datatype Decoded =
    | Read(message: Message, rest: Bytes)
    | EndOfFile
    | UnexpectedEnd
    | Corrupted
    | Undecodable

  /** A read of `n` bytes: nothing there is the end of the file, too little is an unexpected end. */
  function Shortage(bytes: Bytes, n: nat): Option<Decoded> {
    if |bytes| >= n then None else if bytes == [] then Some(EndOfFile) else Some(UnexpectedEnd)
  }

  function Decode(c: Codec, bytes: Bytes): (d: Decoded)
    ensures d.Read? ==> |d.rest| < |bytes|
  {
    if Shortage(bytes, 4).Some? then Shortage(bytes, 4).value else
      var length := Uint32(bytes[..4]);
      var b1 := bytes[4..];
      if length >= MAX_MSG_SIZE then Corrupted
      else if Shortage(b1, length).Some? then Shortage(b1, length).value
      else
        var b2 := b1[length..];
        if Shortage(b2, 4).Some? then Shortage(b2, 4).value
        else if Uint32(b2[..4]) != c.crc(b1[..length]) then Corrupted
        else
          match c.unmarshal(b1[..length])
          case None => Undecodable
          case Some(m) => Read(m, b2[4..])
  }

  ghost predicate Small(c: Codec, m: Message) { |c.marshal(m)| < MAX_MSG_SIZE }

  /** A frame is decoded to its message, whatever follows. */
  lemma DecodeFrame(c: Codec, m: Message, rest: Bytes)
    requires Faithful(c) && Small(c, m)
    ensures Decode(c, Frame(c, m) + rest) == Read(m, rest)
  {
    hide PutUint32, Uint32;
    var data := c.marshal(m);
    var bytes := Frame(c, m) + rest;
    Uint32RoundTrip(|data|);
    Uint32RoundTrip(c.crc(data));
    assert bytes[..4] == PutUint32(|data|) && bytes[4..] == data + PutUint32(c.crc(data)) + rest;
    assert bytes[4..][..|data|] == data && bytes[4..][|data|..] == PutUint32(c.crc(data)) + rest;
  }

  /** A message at or over the limit is written, but read as corruption. */
  lemma OversizeIsCorrupted(c: Codec, m: Message, rest: Bytes)
    requires MAX_MSG_SIZE <= |c.marshal(m)| < UINT32
    ensures Decode(c, Frame(c, m) + rest) == Corrupted
  {
    hide PutUint32, Uint32;
    Uint32RoundTrip(|c.marshal(m)|);
    assert (Frame(c, m) + rest)[..4] == PutUint32(|c.marshal(m)|);
  }

  /** A message comes back from its frame, with what follows left over, exactly when it is under the limit. */
  lemma ReadBackIffSmall(c: Codec, m: Message, rest: Bytes)
    requires Faithful(c)
    ensures Decode(c, Frame(c, m) + rest) == Read(m, rest) <==> Small(c, m)
  {
    hide PutUint32, Uint32;
    var data := c.marshal(m);
    if Small(c, m) {
      DecodeFrame(c, m, rest);
    } else {
      Uint32RoundTrip(|data| % UINT32);
      assert (Frame(c, m) + rest)[..4] == PutUint32(|data| % UINT32);
    }
  }

  /** A frame cut short: the end looks clean exactly where a read would start. */
  lemma DecodeCut(c: Codec, m: Message, k: nat)
    requires Faithful(c) && Small(c, m) && k < |Frame(c, m)|
    ensures Decode(c, Frame(c, m)[..k]) == if k in {0, 4, 4 + |c.marshal(m)|} then EndOfFile else UnexpectedEnd
  {
    hide PutUint32, Uint32;
    var data := c.marshal(m);
    var bytes := Frame(c, m)[..k];
    Uint32RoundTrip(|data|);
    if k >= 4 { assert bytes[..4] == PutUint32(|data|); }
  }

  // ----- A file of frames -----

  function Frames(c: Codec, ms: seq<Message>): Bytes {
    if ms == [] then [] else Frame(c, ms[0]) + Frames(c, ms[1..])
  }

  /** The messages of a file up to the first that cannot be read, and how the reading ended. */
  function ReadAll(c: Codec, bytes: Bytes): (seq<Message>, Decoded)
    decreases |bytes|
  {
    match Decode(c, bytes)
    case Read(m, rest) => var (ms, end) := ReadAll(c, rest); ([m] + ms, end)
    case end => ([], end)
  }

  ghost predicate AllSmall(c: Codec, ms: seq<Message>) {
    forall i :: 0 <= i < |ms| ==> Small(c, ms[i])
  }

  /** Reading a file of frames gives back exactly the messages written. */
  lemma {:induction false} ReadFrames(c: Codec, ms: seq<Message>)
    requires Faithful(c) && AllSmall(c, ms)
    ensures ReadAll(c, Frames(c, ms)) == (ms, EndOfFile)
  {
    hide Decode, Frame;
    if ms == [] {
      EmptyFile(c);
    } else {
      DecodeFrame(c, ms[0], Frames(c, ms[1..]));
      ReadFrames(c, ms[1..]);
      assert ms == [ms[0]] + ms[1..];
    }
  }

  lemma EmptyFile(c: Codec)
    ensures Decode(c, []) == EndOfFile
  {}

  /** Number of frames that lie wholly within the first `k` bytes. */
  function WholeFrames(c: Codec, ms: seq<Message>, k: nat): (n: nat)
    ensures n <= |ms|
  {
    if ms == [] || k < |Frame(c, ms[0])| then 0 else 1 + WholeFrames(c, ms[1..], k - |Frame(c, ms[0])|)
  }

  /** The first `k` bytes end where the decoder would start a read. */
  predicate CleanCut(c: Codec, ms: seq<Message>, k: nat) {
    ms == []
    || (if k < |Frame(c, ms[0])| then k in {0, 4, 4 + |c.marshal(ms[0])|}
        else CleanCut(c, ms[1..], k - |Frame(c, ms[0])|))
  }

  /** Reading any prefix of a file returns exactly the messages whose whole frames lie inside it. */
  lemma {:induction false} ReadPrefix(c: Codec, ms: seq<Message>, k: nat)
    requires Faithful(c) && AllSmall(c, ms) && k <= |Frames(c, ms)|
    ensures var (read, end) := ReadAll(c, Frames(c, ms)[..k]);
      read == ms[..WholeFrames(c, ms, k)] && end == if CleanCut(c, ms, k) then EndOfFile else UnexpectedEnd
  {
    hide Decode, Frame;
    if ms == [] {
      EmptyFile(c);
      assert Frames(c, ms)[..k] == [];
    } else {
      var n := |Frame(c, ms[0])|;
      if k < n {
        assert Frames(c, ms)[..k] == Frame(c, ms[0])[..k];
        DecodeCut(c, ms[0], k);
      } else {
        var rest := Frames(c, ms[1..])[..k - n];
        assert Frames(c, ms)[..k] == Frame(c, ms[0]) + rest;
        DecodeFrame(c, ms[0], rest);
        ReadPrefix(c, ms[1..], k - n);
        assert ms[..1 + WholeFrames(c, ms[1..], k - n)] == [ms[0]] + ms[1..][..WholeFrames(c, ms[1..], k - n)];
      }
    }
  }

  lemma {:induction false} FramesAppend(c: Codec, ms: seq<Message>, m: Message)
    ensures Frames(c, ms + [m]) == Frames(c, ms) + Frame(c, m)
  {
    hide Frame;
    if ms == [] {
      assert Frames(c, [m]) == Frame(c, m) + Frames(c, [m][1..]);
    } else {
      FramesAppend(c, ms[1..], m);
      assert (ms + [m])[1..] == ms[1..] + [m];
    }
  }

  // ----- Writing after a torn tail -----

  /** The serializer writes every message in one way only. */
  ghost predicate Canonical(c: Codec) {
    forall d, m :: c.unmarshal(d) == Some(m) ==> d == c.marshal(m)
  }

  /** What is decoded to a message starts with the frame of the message. */
  lemma DecodedIsFrame(c: Codec, bytes: Bytes)
    requires Faithful(c) && Canonical(c) && Decode(c, bytes).Read?
    ensures bytes == Frame(c, Decode(c, bytes).message) + Decode(c, bytes).rest
  {
    hide PutUint32, Uint32;
    var length := Uint32(bytes[..4]);
    var data := bytes[4..][..length];
    var m := Decode(c, bytes).message;
    assert data == c.marshal(m);
    PutBack(bytes[..4]);
    PutBack(bytes[4..][length..][..4]);
    assert bytes == bytes[..4] + data + bytes[4..][length..][..4] + Decode(c, bytes).rest;
  }

  lemma PutBack(bytes: Bytes)
    requires |bytes| == 4
    ensures Uint32(bytes) < UINT32 && PutUint32(Uint32(bytes)) == bytes
  {
    FourBytes();
    BytesRoundTrip(Reversed(bytes));
    assert Reversed(Reversed(bytes)) == bytes;
  }

  lemma {:induction false} ReadMore(c: Codec, ms: seq<Message>, rest: Bytes)
    requires Faithful(c) && AllSmall(c, ms)
    ensures ReadAll(c, Frames(c, ms) + rest) == (ms + ReadAll(c, rest).0, ReadAll(c, rest).1)
  {
    hide Decode, Frame;
    var read := ReadAll(c, rest).0;
    if ms == [] {
      assert Frames(c, ms) + rest == rest && ms + read == read;
    } else {
      DecodeFrame(c, ms[0], Frames(c, ms[1..]) + rest);
      assert Frames(c, ms) + rest == Frame(c, ms[0]) + (Frames(c, ms[1..]) + rest);
      ReadMore(c, ms[1..], rest);
      assert [ms[0]] + (ms[1..] + read) == ms + read;
    }
  }

  /** A file is read as messages that begin with `ms` exactly when it begins with their frames. */
  lemma {:induction false} ReadsFirst(c: Codec, bytes: Bytes, ms: seq<Message>)
    requires Faithful(c) && Canonical(c) && AllSmall(c, ms)
    ensures ms <= ReadAll(c, bytes).0 <==> Frames(c, ms) <= bytes
    decreases |ms|
  {
    hide Decode, Frame, Canonical;
    if Frames(c, ms) <= bytes {
      assert bytes == Frames(c, ms) + bytes[|Frames(c, ms)|..];
      ReadMore(c, ms, bytes[|Frames(c, ms)|..]);
    }
    if ms != [] && ms <= ReadAll(c, bytes).0 {
      DecodedIsFrame(c, bytes);
      var rest := Decode(c, bytes).rest;
      assert ReadAll(c, bytes).0[1..] == ReadAll(c, rest).0 && ms[1..] <= ReadAll(c, rest).0;
      ReadsFirst(c, rest, ms[1..]);
      assert bytes == Frame(c, ms[0]) + rest;
    }
  }

  /**
   * A log reopened with a tail that is no whole frame, and written to: the messages written later are
   * read back exactly when their frames are what the file goes on with, tail included. That is so when
   * the file ended on a frame boundary.
   */
  lemma WrittenAfterTail(c: Codec, ms: seq<Message>, tail: Bytes, later: seq<Message>)
    requires Faithful(c) && Canonical(c) && AllSmall(c, ms) && AllSmall(c, later)
    ensures ms + later <= ReadAll(c, Frames(c, ms) + tail + Frames(c, later)).0
      <==> Frames(c, later) <= tail + Frames(c, later)
    ensures tail == [] ==> ReadAll(c, Frames(c, ms) + tail + Frames(c, later)) == (ms + later, EndOfFile)
  {
    hide Decode, Frame, Canonical, Frames, ReadAll;
    var rest := tail + Frames(c, later);
    assert Frames(c, ms) + tail + Frames(c, later) == Frames(c, ms) + rest;
    ReadMore(c, ms, rest);
    ReadsFirst(c, rest, later);
    var read := ReadAll(c, rest).0;
    assert (ms + read)[..|ms|] == ms && (ms + read)[|ms|..] == read;
    assert ms + later <= ms + read <==> later <= read by { PrefixBehind(ms, later, read); }
    if tail == [] {
      assert rest == Frames(c, later);
      ReadFrames(c, later);
    }
  }

  lemma PrefixBehind(ms: seq<Message>, later: seq<Message>, read: seq<Message>)
    ensures ms + later <= ms + read <==> later <= read
  {
    if ms + later <= ms + read {
      forall i | 0 <= i < |later| ensures later[i] == read[i] {
        assert (ms + later)[|ms| + i] == (ms + read)[|ms| + i];
      }
    }
  }

  /** A torn frame longer than all that is written after it swallows everything: nothing later is read. */
  lemma TornFrameSwallows(c: Codec, ms: seq<Message>, torn: Message, k: nat, later: seq<Message>)
    requires Faithful(c) && AllSmall(c, ms) && Small(c, torn)
    requires 4 <= k && k + |Frames(c, later)| < |Frame(c, torn)|
    ensures ReadAll(c, Frames(c, ms) + Frame(c, torn)[..k] + Frames(c, later)).0 == ms
  {
    hide PutUint32, Uint32, Frames;
    var rest := Frame(c, torn)[..k] + Frames(c, later);
    assert Frames(c, ms) + Frame(c, torn)[..k] + Frames(c, later) == Frames(c, ms) + rest;
    ReadMore(c, ms, rest);
    Uint32RoundTrip(|c.marshal(torn)|);
    assert rest[..4] == PutUint32(|c.marshal(torn)|);
    assert !Decode(c, rest).Read?;
  }
}
