/** Peer wire messages: the printer, the parser and the frame reader of the metadata fetcher. */
module Wire {
  import opened Bytes
  import opened Net

  const MAX_FRAME: nat := 262144
  const WORD: nat := 0x1_0000_0000

  type U16 = n: nat | n < 0x1_0000
  type U32 = n: nat | n < WORD

  datatype Message =
    | KeepAlive | Choke | Unchoke | Interested | NotInterested
    | Have(piece: U32)
    | Bitfield(bits: seq<Byte>)
    | Request(index: U32, begin: U32, length: U32)
    | Piece(index: U32, begin: U32, block: seq<Byte>)
    | Cancel(index: U32, begin: U32, length: U32)
    | Port(port: U16)
    | Extended(id: Byte, payload: seq<Byte>)

  // ------------------------------------------------------------ big-endian words

  function Be16(n: U16): seq<Byte>
  {
    [n / 256, n % 256]
  }

  function Be32(n: U32): seq<Byte>
  {
    [n / 256 / 256 / 256, n / 256 / 256 % 256, n / 256 % 256, n % 256]
  }

  function Word16(s: seq<Byte>): U16
    requires |s| >= 2
  {
    s[0] as int * 256 + s[1]
  }

  function Word32(s: seq<Byte>): U32
    requires |s| >= 4
  {
    ((s[0] as int * 256 + s[1]) * 256 + s[2]) * 256 + s[3]
  }

  /** Reading a word undoes writing it, and the other way round; what follows it does not matter. */
  lemma WordRoundTrip(n: U32, tail: seq<Byte>)
    ensures |Be32(n)| == 4 && Word32(Be32(n) + tail) == n
  {
    var q, r, t := n / 256, n / 256 / 256, n / 256 / 256 / 256;
    assert n == 256 * q + n % 256 && q == 256 * r + q % 256 && r == 256 * t + r % 256;
    assert (Be32(n) + tail)[..4] == Be32(n);
  }

  lemma WordPrefix(s: seq<Byte>)
    requires |s| >= 4
    ensures Be32(Word32(s)) == s[..4]
  {
    var a := s[0] as int * 256 + s[1];
    var b := a * 256 + s[2];
    assert Word32(s) / 256 == b && b / 256 == a && a / 256 == s[0];
  }

  lemma PortPrefix(s: seq<Byte>)
    requires |s| >= 2
    ensures Be16(Word16(s)) == s[..2]
  {
  }

  // ------------------------------------------------------------ printing

  /** The identifier of a message; a keep-alive has none. */
  function Kind(m: Message): Byte
    requires !m.KeepAlive?
  {
    match m
    case Choke => 0
    case Unchoke => 1
    case Interested => 2
    case NotInterested => 3
    case Have(_) => 4
    case Bitfield(_) => 5
    case Request(_, _, _) => 6
    case Piece(_, _, _) => 7
    case Cancel(_, _, _) => 8
    case Port(_) => 9
    case Extended(_, _) => 20
  }

  function Body(m: Message): seq<Byte>
  {
    match m
    case Have(piece) => Be32(piece)
    case Bitfield(bits) => bits
    case Request(index, begin, length) => Be32(index) + Be32(begin) + Be32(length)
    case Piece(index, begin, block) => Be32(index) + Be32(begin) + block
    case Cancel(index, begin, length) => Be32(index) + Be32(begin) + Be32(length)
    case Port(port) => Be16(port)
    case Extended(id, payload) => [id] + payload
    case _ => []
  }

  function Payload(m: Message): seq<Byte>
  {
    if m.KeepAlive? then [] else [Kind(m)] + Body(m)
  }

  /** The length prefix is the payload's length cast to 32 bits. */
  function ToBytes(m: Message): seq<Byte>
  {
    Be32(|Payload(m)| % WORD) + Payload(m)
  }

  // ------------------------------------------------------------ parsing

  function FromPayload(payload: seq<Byte>): Option<Message>
  {
    if |payload| == 0 then Some(KeepAlive) else FromBody(payload[0], payload[1..])
  }

  function FromBody(id: Byte, body: seq<Byte>): Option<Message>
  {
    if id == 0 then Some(Choke)
    else if id == 1 then Some(Unchoke)
    else if id == 2 then Some(Interested)
    else if id == 3 then Some(NotInterested)
    else if id == 4 && |body| >= 4 then Some(Have(Word32(body)))
    else if id == 5 then Some(Bitfield(body))
    else if id == 6 && |body| >= 12 then Some(Request(Word32(body), Word32(body[4..]), Word32(body[8..])))
    else if id == 7 && |body| >= 8 then Some(Piece(Word32(body), Word32(body[4..]), body[8..]))
    else if id == 8 && |body| >= 12 then Some(Cancel(Word32(body), Word32(body[4..]), Word32(body[8..])))
    else if id == 9 && |body| >= 2 then Some(Port(Word16(body)))
    else if id == 20 && |body| > 0 then Some(Extended(body[0], body[1..]))
    else None
  }

  function FromBytes(data: seq<Byte>): Option<Message>
  {
    if |data| < 4 then None
    else
      var len := Word32(data);
      if len == 0 then Some(KeepAlive)
      else if |data| < 4 + len then None
      else FromPayload(data[4..4 + len])
  }

  function FromBytesFrame(len: U32, body: seq<Byte>): Option<Message>
  {
    if len == 0 then Some(KeepAlive)
    else if |body| < len then None
    else FromPayload(body[..len])
  }

  // ------------------------------------------------------------ printer against parser

  /** Messages whose payload has one length only: the parser ignores what follows it. */
  predicate FixedLength(m: Message)
  {
    !m.KeepAlive? && !m.Bitfield? && !m.Piece? && !m.Extended?
  }

  /** payload stands for m: it is m's own payload, or starts with it when the length of m is fixed. */
  predicate StandsFor(payload: seq<Byte>, m: Message)
  {
    if FixedLength(m) then Payload(m) <= payload else payload == Payload(m)
  }

  /** The same of what follows the identifier. */
  predicate BodyFor(body: seq<Byte>, m: Message)
  {
    if FixedLength(m) then Body(m) <= body else body == Body(m)
  }

  lemma StandsForBody(payload: seq<Byte>, m: Message)
    requires !m.KeepAlive?
    ensures StandsFor(payload, m) <==> |payload| > 0 && payload[0] == Kind(m) && BodyFor(payload[1..], m)
  {
    hide Kind, Body;
    assert Payload(m) == [Kind(m)] + Body(m);
    assert |payload| > 0 ==> payload == [payload[0]] + payload[1..];
    assert Payload(m)[1..] == Body(m);
  }

  /** The parser answers m only when the payload stands for m. */
  lemma ParsedStandsFor(payload: seq<Byte>)
    requires FromPayload(payload).Some?
    ensures StandsFor(payload, FromPayload(payload).value)
  {
    if |payload| > 0 {
      ParsedBody(payload[0], payload[1..]);
      var m := FromPayload(payload).value;
      hide FromBody, BodyFor, StandsFor;
      StandsForBody(payload, m);
    }
  }

  lemma ParsedBody(id: Byte, body: seq<Byte>)
    requires FromBody(id, body).Some?
    ensures var m := FromBody(id, body).value; !m.KeepAlive? && Kind(m) == id && BodyFor(body, m)
  {
    hide Be32, Word32, Be16, Word16;
    match id
    case 4 => HeadParsed(body, 1);
    case 6 => HeadParsed(body, 3);
    case 7 =>
      HeadParsed(body, 2);
      assert body == body[..8] + body[8..];
    case 8 => HeadParsed(body, 3);
    case 9 => PortPrefix(body);
    case 20 => assert body == [body[0]] + body[1..];
    case _ =>
  }

  lemma HeadParsed(body: seq<Byte>, words: nat)
    requires 1 <= words <= 3 && |body| >= 4 * words
    ensures Be32(Word32(body)) == body[..4]
    ensures words >= 2 ==> Be32(Word32(body)) + Be32(Word32(body[4..])) == body[..8]
    ensures words == 3 ==> Be32(Word32(body)) + Be32(Word32(body[4..])) + Be32(Word32(body[8..])) == body[..12]
  {
    hide Be32, Word32;
    WordPrefix(body);
    if words >= 2 {
      WordPrefix(body[4..]);
      assert body[..8] == body[..4] + body[4..8];
    }
    if words == 3 {
      WordPrefix(body[8..]);
      assert body[..12] == body[..8] + body[8..12];
    }
  }

  /** Three words in a row, read back. */
  lemma WordsRead(a: U32, b: U32, c: U32, tail: seq<Byte>)
    ensures var s := Be32(a) + Be32(b) + Be32(c) + tail;
            |s| >= 12 && Word32(s) == a && Word32(s[4..]) == b && Word32(s[8..]) == c && s[8..] == Be32(c) + tail
  {
    var s := Be32(a) + Be32(b) + Be32(c) + tail;
    assert s == Be32(a) + (Be32(b) + Be32(c) + tail);
    assert s[4..] == Be32(b) + (Be32(c) + tail);
    assert s[8..] == Be32(c) + tail;
    WordRoundTrip(a, Be32(b) + Be32(c) + tail);
    WordRoundTrip(b, Be32(c) + tail);
    WordRoundTrip(c, tail);
  }

  /** Two words and a block, read back. */
  lemma BlockRead(a: U32, b: U32, block: seq<Byte>)
    ensures var s := Be32(a) + Be32(b) + block;
            |s| >= 8 && Word32(s) == a && Word32(s[4..]) == b && s[8..] == block
  {
    var s := Be32(a) + Be32(b) + block;
    assert s == Be32(a) + (Be32(b) + block);
    assert s[4..] == Be32(b) + block;
    WordRoundTrip(a, Be32(b) + block);
    WordRoundTrip(b, block);
  }

  lemma PortRead(port: U16, tail: seq<Byte>)
    ensures var s := Be16(port) + tail; |s| >= 2 && Word16(s) == port
  {
  }

  /** A body that stands for m is parsed as m. */
  lemma BodyParsed(body: seq<Byte>, m: Message)
    requires !m.KeepAlive? && BodyFor(body, m)
    ensures FromBody(Kind(m), body) == Some(m)
  {
    hide Be32, Word32, Be16, Word16;
    var tail := body[|Body(m)|..];
    assert body == Body(m) + tail;
    match m
    case Have(piece) => WordRoundTrip(piece, tail);
    case Request(index, begin, length) => WordsRead(index, begin, length, tail);
    case Cancel(index, begin, length) => WordsRead(index, begin, length, tail);
    case Piece(index, begin, block) => BlockRead(index, begin, block);
    case Port(port) => PortRead(port, tail);
    case Extended(id, data) => assert ([id] + data)[1..] == data;
    case _ =>
  }

  /** A payload that stands for m is parsed as m. */
  lemma StandsForParsed(payload: seq<Byte>, m: Message)
    requires StandsFor(payload, m)
    ensures FromPayload(payload) == Some(m)
  {
    if !m.KeepAlive? {
      StandsForBody(payload, m);
      hide StandsFor, BodyFor, FromBody;
      BodyParsed(payload[1..], m);
    }
  }

  /** The parser answers m exactly on the payloads that stand for m. */
  lemma ParsesExactly(payload: seq<Byte>, m: Message)
    ensures FromPayload(payload) == Some(m) <==> StandsFor(payload, m)
  {
    if FromPayload(payload) == Some(m) {
      ParsedStandsFor(payload);
    }
    if StandsFor(payload, m) {
      StandsForParsed(payload, m);
    }
  }

  /** It answers nothing exactly when no message stands behind the payload. */
  lemma RejectsExactly(payload: seq<Byte>)
    ensures FromPayload(payload).None? <==> forall m :: !StandsFor(payload, m)
  {
    if FromPayload(payload).Some? {
      ParsesExactly(payload, FromPayload(payload).value);
    }
    forall m
      ensures StandsFor(payload, m) ==> FromPayload(payload) == Some(m)
    {
      ParsesExactly(payload, m);
    }
  }

  /** A shorter payload never stands for the same message. */
  lemma TruncationShows(m: Message, len: nat)
    requires len < |Payload(m)|
    ensures FromPayload(Payload(m)[..len]) != Some(m)
  {
    ParsesExactly(Payload(m)[..len], m);
  }

  /** Every message is parsed from its own payload, which is empty only for a keep-alive. */
  lemma OwnPayload(m: Message)
    ensures FromPayload(Payload(m)) == Some(m) && (|Payload(m)| == 0 <==> m.KeepAlive?)
  {
    hide FromPayload, Kind, Body;
    ParsesExactly(Payload(m), m);
  }

  /** from_bytes undoes to_bytes exactly for the messages whose length fits its 32-bit prefix. */
  lemma BytesRoundTrip(m: Message, tail: seq<Byte>)
    ensures FromBytes(ToBytes(m) + tail) == Some(m) <==> |Payload(m)| < WORD
  {
    OwnPayload(m);
    hide Payload, FromPayload, Be32, Word32;
    var p := Payload(m);
    var len := |p| % WORD;
    var data := ToBytes(m) + tail;
    assert data == Be32(len) + (p + tail);
    WordRoundTrip(len, p + tail);
    assert data[4..4 + len] == p[..len];
    if |p| < WORD {
      assert p[..len] == p;
    } else if len > 0 {
      TruncationShows(m, len);
    }
  }

  // ------------------------------------------------------------ the layout, byte by byte

  /** The four bytes from i on are n, the most significant one first. */
  predicate Word32At(s: seq<Byte>, i: nat, n: nat)
  {
    i + 4 <= |s| && n == s[i] as int * 16777216 + s[i + 1] as int * 65536 + s[i + 2] as int * 256 + s[i + 3]
  }

  /** The two bytes from i on are n, the more significant one first. */
  predicate Word16At(s: seq<Byte>, i: nat, n: nat)
  {
    i + 2 <= |s| && n == s[i] as int * 256 + s[i + 1]
  }

  /** What a payload must be to be m: its identifier, and the fields of m behind it. */
  predicate Layout(s: seq<Byte>, m: Message)
  {
    match m
    case KeepAlive => s == []
    case Choke => |s| >= 1 && s[0] == 0
    case Unchoke => |s| >= 1 && s[0] == 1
    case Interested => |s| >= 1 && s[0] == 2
    case NotInterested => |s| >= 1 && s[0] == 3
    case Have(piece) => Word32At(s, 1, piece) && s[0] == 4
    case Bitfield(bits) => |s| >= 1 && s[0] == 5 && s[1..] == bits
    case Request(index, begin, length) =>
      Word32At(s, 1, index) && Word32At(s, 5, begin) && Word32At(s, 9, length) && s[0] == 6
    case Piece(index, begin, block) => Word32At(s, 1, index) && Word32At(s, 5, begin) && s[0] == 7 && s[9..] == block
    case Cancel(index, begin, length) =>
      Word32At(s, 1, index) && Word32At(s, 5, begin) && Word32At(s, 9, length) && s[0] == 8
    case Port(port) => Word16At(s, 1, port) && s[0] == 9
    case Extended(id, payload) => |s| >= 2 && s[0] == 20 && s[1] == id && s[2..] == payload
  }

  /** How many bytes the payload of m has, its identifier included. */
  function LayoutLength(m: Message): nat
  {
    match m
    case KeepAlive => 0
    case Have(_) => 5
    case Bitfield(bits) => 1 + |bits|
    case Request(_, _, _) => 13
    case Piece(_, _, block) => 9 + |block|
    case Cancel(_, _, _) => 13
    case Port(_) => 3
    case Extended(_, payload) => 2 + |payload|
    case _ => 1
  }

  lemma WordIs(s: seq<Byte>, i: nat, n: nat)
    requires i + 4 <= |s|
    ensures Word32At(s, i, n) <==> Word32(s[i..]) == n
  {
  }

  lemma PortIs(s: seq<Byte>, i: nat, n: nat)
    requires i + 2 <= |s|
    ensures Word16At(s, i, n) <==> Word16(s[i..]) == n
  {
  }

  lemma WordsAt(s: seq<Byte>, n: nat)
    requires |s| >= 5
    ensures Word32(s[1..]) == n <==> Word32At(s, 1, n)
    ensures |s| >= 9 ==> (Word32(s[1..][4..]) == n <==> Word32At(s, 5, n))
    ensures |s| >= 13 ==> (Word32(s[1..][8..]) == n <==> Word32At(s, 9, n))
  {
    WordIs(s, 1, n);
    if |s| >= 9 {
      WordIs(s, 5, n);
      assert s[1..][4..] == s[5..];
    }
    if |s| >= 13 {
      WordIs(s, 9, n);
      assert s[1..][8..] == s[9..];
    }
  }

  /** The parser answers m exactly on the payloads laid out as m. */
  lemma LayoutExact(s: seq<Byte>, m: Message)
    ensures FromPayload(s) == Some(m) <==> Layout(s, m)
  {
    hide Word32, Word16, Word32At, Word16At;
    assert forall i: nat, n: nat | Word32At(s, i, n) :: i + 4 <= |s| by { LongEnough(s); }
    assert forall i: nat, n: nat | Word16At(s, i, n) :: i + 2 <= |s| by { LongEnough(s); }
    match m
    case Have(piece) =>
      if |s| >= 5 { WordsAt(s, piece); }
    case Request(index, begin, length) =>
      if |s| >= 13 { WordsAt(s, index); WordsAt(s, begin); WordsAt(s, length); }
    case Cancel(index, begin, length) =>
      if |s| >= 13 { WordsAt(s, index); WordsAt(s, begin); WordsAt(s, length); }
    case Piece(index, begin, _) =>
      if |s| >= 9 {
        WordsAt(s, index);
        WordsAt(s, begin);
        assert s[1..][8..] == s[9..];
      }
    case Port(port) =>
      if |s| >= 3 { PortIs(s, 1, port); }
    case Extended(_, _) =>
      if |s| >= 2 { assert s[1..][1..] == s[2..]; }
    case _ =>
  }

  lemma LongEnough(s: seq<Byte>)
    ensures forall i: nat, n: nat | Word32At(s, i, n) :: i + 4 <= |s|
    ensures forall i: nat, n: nat | Word16At(s, i, n) :: i + 2 <= |s|
  {
  }

  /** What the printer writes: four bytes with the length of the payload, cut to 32 bits, then the payload, which is
      laid out as m and has no byte more. */
  lemma PrintedLayout(m: Message)
    ensures var s := ToBytes(m);
            && |s| == 4 + LayoutLength(m)
            && Word32At(s, 0, LayoutLength(m) % 4294967296)
            && Layout(s[4..], m)
  {
    var s := ToBytes(m);
    OwnPayload(m);
    LayoutExact(Payload(m), m);
    assert s[4..] == Payload(m);
    assert |Payload(m)| == LayoutLength(m);
    hide Layout, Payload;
    WordRoundTrip(|Payload(m)| % WORD, Payload(m));
    WordIs(s, 0, |Payload(m)| % WORD);
    assert s[0..] == s;
  }

  // ------------------------------------------------------------ frames

  datatype ReadResult = Frame(message: Option<Message>) | TooLarge(len: nat) | EndOfStream

  /** read_next_frame on the bytes to come: the answer and the bytes left. */
  function ReadFrame(bytes: seq<Byte>): (ReadResult, seq<Byte>)
  {
    if |bytes| < 4 then (EndOfStream, [])
    else
      var len, rest := Word32(bytes), bytes[4..];
      if len == 0 then (Frame(Some(KeepAlive)), rest)
      else if len > MAX_FRAME then (TooLarge(len), rest)
      else if |rest| < len then (EndOfStream, [])
      else (Frame(FromBytesFrame(len, rest[..len])), rest[len..])
  }

  /** One frame is read back whole, and nothing after it is touched, exactly when it is within the limit. */
  lemma FrameReadBack(m: Message, tail: seq<Byte>)
    ensures ReadFrame(ToBytes(m) + tail) == (Frame(Some(m)), tail) <==> |Payload(m)| <= MAX_FRAME
  {
    OwnPayload(m);
    hide Payload, FromPayload, Be32, Word32;
    var p := Payload(m);
    var len := |p| % WORD;
    var data := ToBytes(m) + tail;
    assert data == Be32(len) + (p + tail);
    WordRoundTrip(len, p + tail);
    assert data[4..] == p + tail;
    if |p| < WORD {
      assert (p + tail)[..len] == p && (p + tail)[len..] == tail;
      assert p[..len] == p;
    } else {
      assert |(p + tail)[len..]| > |tail|;
    }
  }

  /** A frame is the message laid out in as many bytes as its four length bytes announce, up to 262144. */
  lemma FrameLayout(s: seq<Byte>, len: U32, m: Message)
    requires Word32At(s, 0, len)
    ensures ReadFrame(s).0 == Frame(Some(m)) <==> len <= 262144 && 4 + len <= |s| && Layout(s[4..4 + len], m)
    ensures ReadFrame(s).0 == TooLarge(len) <==> len > 262144
    ensures ReadFrame(s).0 == EndOfStream <==> len <= 262144 && |s| < 4 + len
    ensures len <= 262144 && 4 + len <= |s| ==> ReadFrame(s).1 == s[4 + len..]
  {
    hide FromPayload, Word32, Word32At, Layout;
    assert |s| >= 4 by { LongEnough(s); }
    WordIs(s, 0, len);
    assert s[0..] == s;
    if len == 0 {
      assert s[4..4] == [];
      OnlyKeepAlive(m);
    } else if 4 + len <= |s| {
      assert s[4..][..len] == s[4..4 + len] && s[4..][..len][..len] == s[4..4 + len] && s[4..][len..] == s[4 + len..];
      LayoutExact(s[4..4 + len], m);
    }
  }

  lemma OnlyKeepAlive(m: Message)
    ensures Layout([], m) <==> m == KeepAlive
  {
  }

  function Concat(ms: seq<Message>): seq<Byte>
  {
    if |ms| == 0 then [] else ToBytes(ms[0]) + Concat(ms[1..])
  }

  lemma ConcatParts(ms: seq<Message>, i: nat)
    requires i <= |ms|
    ensures ms[0..] == ms
    ensures Concat(ms[i..]) == if i == |ms| then [] else ToBytes(ms[i]) + Concat(ms[i + 1..])
  {
    if i < |ms| {
      assert ms[i..][1..] == ms[i + 1..];
    }
  }

  predicate Readable(ms: seq<Message>)
  {
    forall i | 0 <= i < |ms| :: |Payload(ms[i])| <= MAX_FRAME
  }

  /** The connection, with the one buffer every frame is read into. */
  class FrameReader {
    var stream: seq<Byte>
    var buf: seq<Byte>

    constructor (stream: seq<Byte>)
      ensures this.stream == stream && buf == []
    {
      this.stream := stream;
      buf := [];
    }

    /** Vec::resize(len, 0). */
    method Resize(len: nat)
      modifies `buf
      ensures |buf| == len
      ensures forall i | 0 <= i < len :: buf[i] == if i < |old(buf)| then old(buf)[i] else 0
    {
      if len <= |buf| {
        buf := buf[..len];
      } else {
        buf := buf + seq(len - |buf|, _ => 0);
      }
    }

    /** read_exact: the next n bytes, or the end of the stream. */
    method ReadExact(n: nat) returns (bytes: Option<seq<Byte>>)
      modifies `stream
      ensures bytes == if |old(stream)| < n then None else Some(old(stream)[..n])
      ensures stream == if |old(stream)| < n then [] else old(stream)[n..]
    {
      if |stream| < n {
        stream := [];
        return None;
      }
      bytes := Some(stream[..n]);
      stream := stream[n..];
    }

    method ReadNextFrame() returns (r: ReadResult)
      modifies this
      ensures (r, stream) == ReadFrame(old(stream))
    {
      var header := ReadExact(4);
      if header.None? {
        return EndOfStream;
      }
      var len := Word32(header.value);
      assert len == Word32(old(stream));
      if len == 0 {
        return Frame(Some(KeepAlive));
      }
      if len > MAX_FRAME {
        return TooLarge(len);
      }
      Resize(len);
      var body := ReadExact(|buf|);
      if body.None? {
        return EndOfStream;
      }
      buf := body.value;
      return Frame(FromBytesFrame(len, buf));
    }

    /** Reading as many frames as a stream has encoded messages in front yields those messages in order
        and consumes exactly their bytes, whatever the buffer held. */
    method ReadMany(count: nat, ghost ms: seq<Message>, ghost tail: seq<Byte>) returns (got: seq<Message>)
      requires count == |ms| && Readable(ms) && stream == Concat(ms) + tail
      modifies this
      ensures got == ms && stream == tail
    {
      hide ReadFrame, ToBytes, Payload, Concat;
      ConcatParts(ms, 0);
      got := [];
      while |got| < count
        invariant |got| <= |ms| && got == ms[..|got|]
        invariant stream == Concat(ms[|got|..]) + tail
      {
        ghost var next := ms[|got|];
        ghost var after := Concat(ms[|got| + 1..]) + tail;
        ConcatParts(ms, |got|);
        assert stream == ToBytes(next) + after;
        FrameReadBack(next, after);
        var r := ReadNextFrame();
        got := got + [r.message.value];
      }
      ConcatParts(ms, |ms|);
    }
  }
}
