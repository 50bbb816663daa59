/** Message framing: what send_msg puts on the wire and what one recv leaves in a buffer. */
module Frames {
  import opened CText

  const MSG_HEAND: nat := 4
  const BODY_CAPACITY: nat := 1024
  const BUFFER_SIZE: nat := 1024

  const OBTAIN_SERVER_ADDR: nat := 0
  const REPORT_CONNECT: nat := 1
  const REGISRERED: nat := 2
  const LOGIN: nat := 3
  const USER_LIST: nat := 4
  const FIND_USER: nat := 5
  const OBTAIN_CLIENT_ADDR: nat := 6
  const CREATE_GROUP: nat := 11
  const LOGOUT: nat := 12
  const ERROR: nat := 13
  const DELETE_USER: nat := 14

  /** A received message: the type field and the body read as a C string. */
  datatype Message = Message(kind: nat, body: string)

  /** The two bytes of a uint16_t, low byte first. */
  function U16(x: nat): (s: string)
    ensures |s| == 2
  {
    [(x % 256) as char, (x / 256 % 256) as char]
  }

  function ReadU16(s: string): nat
    requires |s| >= 2
  {
    s[0] as nat + 256 * s[1] as nat
  }

  /** The bytes send_msg hands to send; a missing body is a null pointer. */
  function FrameOf(kind: nat, body: Option<string>): (wire: string)
    ensures |wire| == MSG_HEAND + (if body.Some? then |body.value| + 1 else 0)
  {
    match body
    case None => U16(kind) + U16(MSG_HEAND)
    case Some(b) => U16(kind) + U16(MSG_HEAND + |b| + 1) + b + [NUL]
  }

  /** send_msg: the struct starts with unknown contents and is filled field by field. */
  method SendMsg(kind: nat, buf: Option<string>) returns (wire: string)
    requires kind < 65536
    requires buf.Some? ==> |buf.value| < BODY_CAPACITY && NUL !in buf.value
    ensures wire == FrameOf(kind, buf)
  {
    var msg := new char[MSG_HEAND + BODY_CAPACITY];
    var length := MSG_HEAND;
    msg[0], msg[1] := (kind % 256) as char, (kind / 256) as char;
    if buf.Some? {
      var b := buf.value;
      forall i | 0 <= i < |b| {
        msg[MSG_HEAND + i] := b[i];
      }
      msg[MSG_HEAND + |b|] := NUL;
      length := length + |b| + 1;
    }
    msg[2], msg[3] := (length % 256) as char, (length / 256) as char;
    wire := msg[..length];
    assert wire == FrameOf(kind, buf);
  }

  /** How much of a frame one recv of BUFFER_SIZE - 1 bytes takes. */
  function Taken(wire: string): (n: nat)
    ensures n <= |wire| && n <= BUFFER_SIZE - 1
  {
    if |wire| < BUFFER_SIZE then |wire| else BUFFER_SIZE - 1
  }

  /** A buffer after the recv of the clients, which leaves the bytes past the data as they were. */
  function AfterRecv(stale: string, wire: string): (buffer: string)
    requires |stale| == BUFFER_SIZE
    ensures |buffer| == BUFFER_SIZE
  {
    wire[..Taken(wire)] + stale[Taken(wire)..]
  }

  /** A buffer after the recv of the servers, which put a NUL behind the data. */
  function AfterServerRecv(stale: string, wire: string): (buffer: string)
    requires |stale| == BUFFER_SIZE
    ensures |buffer| == BUFFER_SIZE
  {
    AfterRecv(stale, wire)[Taken(wire) := NUL]
  }

  function Decode(buffer: string): Message
    requires |buffer| == BUFFER_SIZE
  {
    Message(ReadU16(buffer), CString(buffer[MSG_HEAND..]))
  }

  function ServerDecode(stale: string, wire: string): Message
    requires |stale| == BUFFER_SIZE
  {
    Decode(AfterServerRecv(stale, wire))
  }

  function ClientDecode(stale: string, wire: string): Message
    requires |stale| == BUFFER_SIZE
  {
    Decode(AfterRecv(stale, wire))
  }

  /** The receive step of the servers on their own buffer. */
  method ServerRecv(m_buf: array<char>, wire: string) returns (msg: Message)
    requires m_buf.Length == BUFFER_SIZE
    modifies m_buf
    ensures m_buf[..] == AfterServerRecv(old(m_buf[..]), wire)
    ensures msg == ServerDecode(old(m_buf[..]), wire)
  {
    var ret := Taken(wire);
    forall i | 0 <= i < ret {
      m_buf[i] := wire[i];
    }
    m_buf[ret] := NUL;
    assert m_buf[..] == AfterServerRecv(old(m_buf[..]), wire);
    msg := Decode(m_buf[..]);
  }

  lemma KindSurvives(stale: string, kind: nat, body: Option<string>)
    requires |stale| == BUFFER_SIZE && kind < 65536
    ensures ServerDecode(stale, FrameOf(kind, body)).kind == kind
    ensures ClientDecode(stale, FrameOf(kind, body)).kind == kind
  {
    var wire := FrameOf(kind, body);
    assert wire[0] == U16(kind)[0] && wire[1] == U16(kind)[1];
  }

  /** Every frame that one recv takes whole is decoded to the message that was sent, whatever the
      buffer held before and whether or not the receiver adds a NUL of its own. */
  lemma FrameRoundTrip(stale: string, kind: nat, body: string)
    requires |stale| == BUFFER_SIZE && kind < 65536
    requires NUL !in body && |body| <= 1018
    ensures Taken(FrameOf(kind, Some(body))) == |FrameOf(kind, Some(body))|
    ensures ServerDecode(stale, FrameOf(kind, Some(body))) == Message(kind, body)
    ensures ClientDecode(stale, FrameOf(kind, Some(body))) == Message(kind, body)
  {
    var wire := FrameOf(kind, Some(body));
    KindSurvives(stale, kind, Some(body));
    var server, client := AfterServerRecv(stale, wire), AfterRecv(stale, wire);
    assert wire[MSG_HEAND + |body|] == NUL;
    assert server[MSG_HEAND..] == body + server[MSG_HEAND + |body|..];
    assert client[MSG_HEAND..] == body + client[MSG_HEAND + |body|..];
    CStringOf(body, server[MSG_HEAND + |body|..]);
    CStringOf(body, client[MSG_HEAND + |body|..]);
  }

  /** The length field of every frame whose length a uint16_t can hold is that length. */
  lemma LengthField(kind: nat, body: Option<string>)
    requires |FrameOf(kind, body)| < 65536
    ensures ReadU16(FrameOf(kind, body)[2..]) == |FrameOf(kind, body)|
  {
    assert FrameOf(kind, body)[2..][..2] == U16(|FrameOf(kind, body)|);
  }

  /** A request with no body reads as the empty text, because the server adds the NUL. */
  lemma NullBodyReadsEmpty(stale: string, kind: nat)
    requires |stale| == BUFFER_SIZE && kind < 65536
    ensures ServerDecode(stale, FrameOf(kind, None)) == Message(kind, "")
  {
    KindSurvives(stale, kind, None);
    var server := AfterServerRecv(stale, FrameOf(kind, None));
    assert server[MSG_HEAND..] == "" + server[MSG_HEAND..];
    CStringOf("", server[MSG_HEAND..]);
  }

  /** A client adds no NUL, so from a frame with no body it reads what its buffer held before. */
  lemma NullBodyShowsStale(stale: string, kind: nat)
    requires |stale| == BUFFER_SIZE && kind < 65536
    ensures ClientDecode(stale, FrameOf(kind, None)) == Message(kind, CString(stale[MSG_HEAND..]))
  {
    KindSurvives(stale, kind, None);
    assert AfterRecv(stale, FrameOf(kind, None))[MSG_HEAND..] == stale[MSG_HEAND..];
  }

  /** Where framing stops working. For bodies that send_msg can hold, one recv takes the whole frame
      exactly up to 1018 characters, and a server reads the body right exactly up to 1019: at 1019 its
      own NUL stands in for the one left in the socket. */
  lemma FrameLimit(stale: string, kind: nat, body: string)
    requires |stale| == BUFFER_SIZE && kind < 65536
    requires NUL !in body && |body| < BODY_CAPACITY
    ensures Taken(FrameOf(kind, Some(body))) == |FrameOf(kind, Some(body))| <==> |body| <= 1018
    ensures ServerDecode(stale, FrameOf(kind, Some(body))).body == body <==> |body| <= 1019
  {
    if |body| <= 1018 {
      FrameRoundTrip(stale, kind, body);
    } else {
      var server := AfterServerRecv(stale, FrameOf(kind, Some(body)));
      assert server[MSG_HEAND..] == body[..1019] + [NUL];
      CStringOf(body[..1019], [NUL]);
      assert |body| == 1019 ==> body[..1019] == body;
    }
  }
}
