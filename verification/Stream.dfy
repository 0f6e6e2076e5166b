/** Framing: messages over a byte stream that the transport cuts wherever it likes. */
module MessageStream {
  import opened TrisTypes
  import opened WireFormat
  import opened PayloadCodec

  const PROTOCOL_MAGIC: u32 := 0x5452_4953
  const PROTOCOL_VERSION: u32 := 1
  const HEADER_SIZE: nat := 16
  const BUFFER_SIZE: nat := 1024

  /** `kind` may be any number; the payload is the union member that belongs to it. */
  datatype Message = Message(kind: u32, payload: Payload)

  predicate WellTyped(m: Message) {
    TypeOf(m.kind).Some? ==> Carries(TypeOf(m.kind).value, m.payload)
  }

  predicate Sendable(m: Message) {
    TypeOf(m.kind).Some? && WellTyped(m)
  }

  predicate AllSendable(ms: seq<Message>) {
    forall k :: 0 <= k < |ms| ==> Sendable(ms[k])
  }

  ghost function Header(kind: u32, length: u32): (b: seq<u8>)
    ensures |b| == HEADER_SIZE
  {
    U32Bytes(PROTOCOL_MAGIC) + U32Bytes(PROTOCOL_VERSION) + U32Bytes(kind) + U32Bytes(length)
  }

  ghost function Frame(m: Message): seq<u8>
    requires Sendable(m)
  {
    EncodedSize(TypeOf(m.kind).value, m.payload);
    Header(m.kind, |Encode(m.payload)|) + Encode(m.payload)
  }

  /** The bytes of a series of messages. */
  ghost function Frames(ms: seq<Message>): seq<u8>
    requires AllSendable(ms)
  {
    if ms == [] then [] else Frame(ms[0]) + Frames(ms[1..])
  }

  // ---- what a receiver makes of a stream ----

  function Open(kind: u32, body: seq<u8>): Option<Message> {
    match TypeOf(kind)
    case None => None
    case Some(t) =>
      match Decode(t, body)
      case None => None
      case Some(p) => Some(Message(kind, p))
  }

  /** One receive on a stream that ends where s ends: the message, if there is one, and the
      bytes left. A stream that ends inside a header or a payload is used up. */
  function Parse(s: seq<u8>): (r: (Option<Message>, seq<u8>))
    ensures r.0.Some? ==> |r.1| + HEADER_SIZE <= |s|
  {
    if |s| < HEADER_SIZE then (None, [])
    else
      var body, length := s[HEADER_SIZE..], U32At(s, 12);
      if U32At(s, 0) != PROTOCOL_MAGIC || U32At(s, 4) != PROTOCOL_VERSION || length > BUFFER_SIZE then (None, body)
      else if |body| < length then (None, [])
      else (Open(U32At(s, 8), body[..length]), body[length..])
  }

  /** Receives until one fails. */
  function ParseAll(s: seq<u8>): seq<Message>
    decreases |s|
  {
    var (r, rest) := Parse(s);
    if r.None? then [] else [r.value] + ParseAll(rest)
  }

  /** A message as the other side sees it: booleans are 0 or 1. */
  function Seen(m: Message): Message { m.(payload := Normal(m.payload)) }

  function SeenAll(ms: seq<Message>): (r: seq<Message>)
    ensures |r| == |ms| && forall k :: 0 <= k < |ms| ==> r[k] == Seen(ms[k])
  {
    if ms == [] then [] else [Seen(ms[0])] + SeenAll(ms[1..])
  }

  lemma HeaderFields(kind: u32, length: u32, rest: seq<u8>)
    ensures var s := Header(kind, length) + rest;
      U32At(s, 0) == PROTOCOL_MAGIC && U32At(s, 4) == PROTOCOL_VERSION && U32At(s, 8) == kind && U32At(s, 12) == length
  {
    var s := Header(kind, length) + rest;
    assert s[0..4] == U32Bytes(PROTOCOL_MAGIC) && s[4..8] == U32Bytes(PROTOCOL_VERSION);
    assert s[8..12] == U32Bytes(kind) && s[12..16] == U32Bytes(length);
    U32AtSlice(s, 0, 4, 0);
    U32AtSlice(s, 4, 8, 0);
    U32AtSlice(s, 8, 12, 0);
    U32AtSlice(s, 12, 16, 0);
  }

  lemma OpenEncoded(m: Message)
    requires Sendable(m)
    ensures Open(m.kind, Encode(m.payload)) == Some(Seen(m))
  {
    DecodeEncode(TypeOf(m.kind).value, m.payload);
  }

  lemma ParseParts(kind: u32, b: seq<u8>, rest: seq<u8>)
    requires |b| <= BUFFER_SIZE
    ensures Parse(Header(kind, |b|) + b + rest) == (Open(kind, b), rest)
  {
    var s := Header(kind, |b|) + b + rest;
    assert s == Header(kind, |b|) + (b + rest);
    HeaderFields(kind, |b|, b + rest);
    var body := s[HEADER_SIZE..];
    assert body == b + rest;
    assert body[..|b|] == b && body[|b|..] == rest;
  }

  /** A receive on a frame, whatever follows it, yields its message and uses up exactly it. */
  lemma ParseFrame(m: Message, rest: seq<u8>)
    requires Sendable(m)
    ensures Parse(Frame(m) + rest) == (Some(Seen(m)), rest)
  {
    EncodedSize(TypeOf(m.kind).value, m.payload);
    OpenEncoded(m);
    ParseParts(m.kind, Encode(m.payload), rest);
  }

  /** Every series of messages comes back in full and in order, whatever follows it. */
  lemma {:induction false} StreamRoundTrip(ms: seq<Message>, rest: seq<u8>)
    requires AllSendable(ms)
    ensures ParseAll(Frames(ms) + rest) == SeenAll(ms) + ParseAll(rest)
  {
    if ms == [] {
      assert Frames(ms) + rest == rest;
    } else {
      var more := Frames(ms[1..]) + rest;
      assert Frames(ms) + rest == Frame(ms[0]) + more;
      ParseFrame(ms[0], more);
      StreamRoundTrip(ms[1..], rest);
      assert SeenAll(ms) + ParseAll(rest) == [Seen(ms[0])] + (SeenAll(ms[1..]) + ParseAll(rest));
    }
  }

  lemma StreamAlone(ms: seq<Message>)
    requires AllSendable(ms)
    ensures ParseAll(Frames(ms)) == SeenAll(ms)
  {
    StreamRoundTrip(ms, []);
    assert Frames(ms) + [] == Frames(ms);
    assert ParseAll([]) == [];
    assert SeenAll(ms) + [] == SeenAll(ms);
  }

  /** Two series with the same bytes are the same series, up to the value of true booleans. */
  lemma StreamsAreUnambiguous(ms: seq<Message>, ns: seq<Message>)
    requires AllSendable(ms) && AllSendable(ns)
    requires Frames(ms) == Frames(ns)
    ensures SeenAll(ms) == SeenAll(ns)
  {
    StreamAlone(ms);
    StreamAlone(ns);
  }

  /** Only frames are accepted: the bytes used up by a successful receive are the frame of the
      message it returned, apart from the byte of a boolean. */
  lemma AcceptedIsFrame(s: seq<u8>)
    requires Parse(s).0.Some?
    ensures var (r, rest) := Parse(s);
      && Sendable(r.value) && |s| == |Frame(r.value)| + |rest|
      && var used := s[..|Frame(r.value)|];
      && s == used + rest && HEADER_SIZE <= |used|
      && var t := TypeOf(r.value.kind).value;
      && |used[HEADER_SIZE..]| == PayloadSize(t)
      && Frame(r.value) == used[..HEADER_SIZE] + Canonical(t, used[HEADER_SIZE..])
  {
    var m, body, length := Parse(s).0.value, s[HEADER_SIZE..], U32At(s, 12);
    var t, b := TypeOf(m.kind).value, body[..length];
    OpenedIsEncoded(U32At(s, 8), b);
    HeaderOf(s);
    EncodedSize(t, m.payload);
    TakeMore(s, HEADER_SIZE, length);
    assert s[..HEADER_SIZE + length][HEADER_SIZE..] == b;
  }

  /** What the message was opened from. */
  lemma OpenedIsEncoded(kind: u32, b: seq<u8>)
    requires Open(kind, b).Some?
    ensures var m := Open(kind, b).value;
      m.kind == kind && Sendable(m) && |b| == PayloadSize(TypeOf(kind).value) &&
      Encode(m.payload) == Canonical(TypeOf(kind).value, b)
  {
    EncodeDecode(TypeOf(kind).value, b);
  }

  lemma HeaderOf(s: seq<u8>)
    requires |s| >= HEADER_SIZE && U32At(s, 0) == PROTOCOL_MAGIC && U32At(s, 4) == PROTOCOL_VERSION
    ensures s[..HEADER_SIZE] == Header(U32At(s, 8), U32At(s, 12))
  {
    U32BytesOf(s, 0);
    U32BytesOf(s, 4);
    U32BytesOf(s, 8);
    U32BytesOf(s, 12);
    assert s[..16] == s[0..4] + s[4..8] + s[8..12] + s[12..16];
  }

  lemma Assoc(a: seq<u8>, b: seq<u8>, c: seq<u8>)
    ensures (a + b) + c == a + (b + c)
  {
  }

  lemma TakeMore(b: seq<u8>, i: nat, n: nat)
    requires i + n <= |b|
    ensures b[..i + n] == b[..i] + b[i..][..n] == b[..i] + b[i..i + n]
  {
  }

  /** The bytes of a longer series: one more frame at the end. */
  lemma {:induction false} FramesAppend(ms: seq<Message>, m: Message)
    requires AllSendable(ms) && Sendable(m) && AllSendable(ms + [m])
    ensures Frames(ms + [m]) == Frames(ms) + Frame(m)
  {
    if ms == [] {
      assert ms + [m] == [m];
      OneFrame(m);
    } else {
      assert (ms + [m])[1..] == ms[1..] + [m] && (ms + [m])[0] == ms[0];
      FramesAppend(ms[1..], m);
      Assoc(Frame(ms[0]), Frames(ms[1..]), Frame(m));
    }
  }

  lemma OneFrame(m: Message)
    requires Sendable(m)
    ensures Frames([m]) == Frame(m)
  {
    assert [m][1..] == [] && Frames([]) == [];
    assert Frame(m) + [] == Frame(m);
  }

  /** A frame that breaks off yields no message. */
  lemma BrokenFrame(m: Message, n: nat)
    requires Sendable(m) && n < |Frame(m)|
    ensures ParseAll(Frame(m)[..n]) == []
  {
    if n >= HEADER_SIZE {
      var b := Encode(m.payload);
      var s := Frame(m)[..n];
      HeaderFields(m.kind, |b|, s[HEADER_SIZE..]);
      assert s == Header(m.kind, |b|) + s[HEADER_SIZE..];
    }
  }

  // ---- the transport and the loops ----

  /** A connected socket. The peer sends `incoming` and then closes; what is sent ends up in
      `outgoing`. Each call moves a chunk of the transport's choosing, or fails. */
  class Socket {
    var incoming: seq<u8>
    var outgoing: seq<u8>
    var failures: nat

    method Send(bytes: seq<u8>) returns (n: int)
      modifies this`outgoing, this`failures
      ensures n <= |bytes|
      ensures n > 0 ==> outgoing == old(outgoing) + bytes[..n] && failures == old(failures)
      ensures n <= 0 ==> outgoing == old(outgoing) && failures == old(failures) + 1
    {
      n :| -1 <= n <= |bytes|;
      if n > 0 {
        outgoing := outgoing + bytes[..n];
      } else {
        failures := failures + 1;
      }
    }

    /** Writes the received chunk at `at`; 0 means that the peer has closed. */
    method Recv(buf: array<u8>, at: nat, max: nat) returns (n: int)
      requires 0 < max && at + max <= buf.Length
      modifies this`incoming, this`failures, buf
      ensures n <= max && n <= |old(incoming)|
      ensures n > 0 ==> incoming == old(incoming)[n..] && buf[at..at + n] == old(incoming)[..n]
      ensures n <= 0 ==> incoming == old(incoming)
      ensures n == 0 ==> incoming == []
      ensures forall k :: 0 <= k < at ==> buf[k] == old(buf[k])
      ensures failures == old(failures) + if n < 0 then 1 else 0
    {
      n :| -1 <= n <= max && n <= |incoming| && (n == 0 ==> incoming == []);
      if n > 0 {
        forall k | 0 <= k < n {
          buf[at + k] := incoming[k];
        }
        incoming := incoming[n..];
      } else if n < 0 {
        failures := failures + 1;
      }
    }
  }

  /** The loop of `send_message`, used for the header and for the payload. */
  method SendFully(socket: Socket, bytes: seq<u8>) returns (ok: bool, ghost sent: nat)
    modifies socket`outgoing, socket`failures
    ensures sent <= |bytes| && socket.outgoing == old(socket.outgoing) + bytes[..sent]
    ensures ok <==> sent == |bytes|
    ensures ok <==> socket.failures == old(socket.failures)
  {
    var totalSent := 0;
    while totalSent < |bytes|
      invariant totalSent <= |bytes| && socket.outgoing == old(socket.outgoing) + bytes[..totalSent]
      invariant socket.failures == old(socket.failures)
    {
      var n := socket.Send(bytes[totalSent..]);
      if n <= 0 {
        return false, totalSent;
      }
      TakeMore(bytes, totalSent, n);
      totalSent := totalSent + n;
    }
    return true, totalSent;
  }

  /** The loop of `receive_message`, used for the header and for the payload. */
  method ReceiveFully(socket: Socket, buf: array<u8>, len: nat) returns (ok: bool)
    requires len <= buf.Length
    modifies socket`incoming, socket`failures, buf
    ensures ok ==> len <= |old(socket.incoming)| && buf[..len] == old(socket.incoming)[..len]
    ensures ok ==> socket.incoming == old(socket.incoming)[len..] && socket.failures == old(socket.failures)
    ensures !ok && socket.failures == old(socket.failures) ==> |old(socket.incoming)| < len && socket.incoming == []
    ensures socket.failures >= old(socket.failures)
  {
    var totalRead := 0;
    while totalRead < len
      invariant totalRead <= len && totalRead <= |old(socket.incoming)|
      invariant buf[..totalRead] == old(socket.incoming)[..totalRead]
      invariant socket.incoming == old(socket.incoming)[totalRead..] && socket.failures == old(socket.failures)
    {
      var n := socket.Recv(buf, totalRead, len - totalRead);
      if n <= 0 {
        return false;
      }
      TakeMore(old(socket.incoming), totalRead, n);
      TakeMore(buf[..], totalRead, n);
      totalRead := totalRead + n;
    }
    return true;
  }

  /** The header, then the payload unless it is empty. */
  method SendParts(socket: Socket, header: seq<u8>, payload: seq<u8>) returns (ok: bool, ghost sent: nat)
    modifies socket`outgoing, socket`failures
    ensures sent <= |header + payload| && socket.outgoing == old(socket.outgoing) + (header + payload)[..sent]
    ensures ok <==> sent == |header + payload|
    ensures ok <==> socket.failures == old(socket.failures)
  {
    ghost var frame, start := header + payload, socket.outgoing;
    ok, sent := SendFully(socket, header);
    assert header[..sent] == frame[..sent];
    if ok && |payload| > 0 {
      ghost var more;
      ok, more := SendFully(socket, payload);
      assert socket.outgoing == start + (header + payload[..more]);
      assert header + payload[..more] == frame[..sent + more];
      sent := sent + more;
    }
  }

  /** A send hands over exactly one frame. It fails on a type it does not know, before sending
      anything, and on a transport failure, after a part of the frame; never for lack of room. */
  method SendMessage(socket: Socket, m: Message) returns (ok: bool)
    requires WellTyped(m)
    modifies socket`outgoing, socket`failures
    ensures ok <==> TypeOf(m.kind).Some? && socket.failures == old(socket.failures)
    ensures ok ==> socket.outgoing == old(socket.outgoing) + Frame(m)
    ensures TypeOf(m.kind).None? ==> socket.outgoing == old(socket.outgoing) && socket.failures == old(socket.failures)
    ensures !ok && Sendable(m) ==>
      exists n :: 0 <= n < |Frame(m)| && socket.outgoing == old(socket.outgoing) + Frame(m)[..n]
  {
    var kind := TypeOf(m.kind);
    if kind.None? {
      return false;
    }
    var header, payload := BuildFrame(kind.value, m);
    ghost var sent;
    ok, sent := SendParts(socket, header, payload);
    assert ok ==> Frame(m)[..sent] == Frame(m);
  }

  /** The serialized payload and the header that announces it. */
  method BuildFrame(t: MessageType, m: Message) returns (header: seq<u8>, payload: seq<u8>)
    requires TypeOf(m.kind) == Some(t) && Carries(t, m.payload)
    ensures |header| == HEADER_SIZE && header + payload == Frame(m)
  {
    var buf := new u8[BUFFER_SIZE](_ => 0);
    EncodedSize(t, m.payload);
    var len := Serialize(t, m.payload, buf);
    assert len == Some(|Encode(m.payload)|) && buf[..len.value] == Encode(m.payload);
    HeaderBytes(m.kind, len.value);
    header :=
      NetworkOrder(PROTOCOL_MAGIC) + NetworkOrder(PROTOCOL_VERSION) + NetworkOrder(m.kind) + NetworkOrder(len.value);
    payload := buf[..len.value];
  }

  lemma HeaderBytes(kind: u32, length: u32)
    ensures Header(kind, length) ==
      NetworkOrder(PROTOCOL_MAGIC) + NetworkOrder(PROTOCOL_VERSION) + NetworkOrder(kind) + NetworkOrder(length)
  {
    U32Unique(U32Bytes(PROTOCOL_MAGIC), NetworkOrder(PROTOCOL_MAGIC));
    U32Unique(U32Bytes(PROTOCOL_VERSION), NetworkOrder(PROTOCOL_VERSION));
    U32Unique(U32Bytes(kind), NetworkOrder(kind));
    U32Unique(U32Bytes(length), NetworkOrder(length));
  }

  /** However the transport cuts the stream, a receive that meets no transport failure does to
      it what Parse says. */
  method ReceiveMessage(socket: Socket) returns (r: Option<Message>)
    modifies socket`incoming, socket`failures
    ensures socket.failures == old(socket.failures) ==> (r, socket.incoming) == Parse(old(socket.incoming))
    ensures socket.failures != old(socket.failures) ==> r == None
    ensures socket.failures >= old(socket.failures)
  {
    ghost var s := socket.incoming;
    var header := new u8[HEADER_SIZE];
    var ok := ReceiveFully(socket, header, HEADER_SIZE);
    if !ok {
      return None;
    }
    assert header[..] == s[..HEADER_SIZE];
    var magic, version := U32At(header[..], 0), U32At(header[..], 4);
    var kind, length := U32At(header[..], 8), U32At(header[..], 12);
    U32AtSlice(s, 0, HEADER_SIZE, 0);
    U32AtSlice(s, 0, HEADER_SIZE, 4);
    U32AtSlice(s, 0, HEADER_SIZE, 8);
    U32AtSlice(s, 0, HEADER_SIZE, 12);
    if magic != PROTOCOL_MAGIC || version != PROTOCOL_VERSION || length > BUFFER_SIZE {
      return None;
    }
    var buf := new u8[BUFFER_SIZE];
    ok := ReceiveFully(socket, buf, length);
    if !ok {
      return None;
    }
    var t := TypeOf(kind);
    if t.None? {
      return None;
    }
    var p := Deserialize(t.value, buf, length);
    if p.None? {
      return None;
    }
    return Some(Message(kind, p.value));
  }

  /** A receive inside a message loop that has handled a part of all messages of the stream. */
  method ReceiveNext(socket: Socket, ghost handled: seq<Message>, ghost all: seq<Message>) returns (r: Option<Message>)
    requires handled + ParseAll(socket.incoming) == all
    modifies socket`incoming, socket`failures
    ensures r.Some? ==>
      && handled + [r.value] + ParseAll(socket.incoming) == all
      && socket.failures == old(socket.failures) && |socket.incoming| < |old(socket.incoming)|
    ensures r.None? ==> handled <= all && (socket.failures == old(socket.failures) ==> handled == all)
    ensures socket.failures >= old(socket.failures)
  {
    ghost var s := socket.incoming;
    r := ReceiveMessage(socket);
    if r.Some? {
      assert handled + ParseAll(s) == handled + [r.value] + ParseAll(socket.incoming);
    }
  }

  /** The message loop of a client thread: it ends, and it has handled the messages of the
      stream in order, all of them unless the transport failed. */
  method ReceiveLoop(socket: Socket) returns (handled: seq<Message>)
    modifies socket`incoming, socket`failures
    ensures handled <= ParseAll(old(socket.incoming))
    ensures socket.failures == old(socket.failures) ==> handled == ParseAll(old(socket.incoming))
  {
    ghost var all := ParseAll(socket.incoming);
    handled := [];
    while true
      invariant handled + ParseAll(socket.incoming) == all && socket.failures == old(socket.failures)
      decreases |socket.incoming|
    {
      var r := ReceiveNext(socket, handled, all);
      if r.None? {
        return;
      }
      handled := handled + [r.value];
    }
  }

  /** One send of a series, with the number of bytes that are out if it fails. */
  method SendNext(socket: Socket, m: Message) returns (ok: bool, ghost n: nat)
    requires Sendable(m)
    modifies socket`outgoing, socket`failures
    ensures ok <==> socket.failures == old(socket.failures)
    ensures n <= |Frame(m)| && (ok <==> n == |Frame(m)|)
    ensures socket.outgoing == old(socket.outgoing) + Frame(m)[..n]
  {
    ok := SendMessage(socket, m);
    n := |Frame(m)|;
    if !ok {
      n :| 0 <= n < |Frame(m)| && socket.outgoing == old(socket.outgoing) + Frame(m)[..n];
    }
  }

  /** Whole frames of a series, then n bytes of the next one. */
  ghost function Sent(ms: seq<Message>, k: nat, n: nat): seq<u8>
    requires AllSendable(ms)
    requires k < |ms| && n <= |Frame(ms[k])|
  {
    Frames(ms[..k]) + Frame(ms[k])[..n]
  }

  lemma SentMore(ms: seq<Message>, k: nat)
    requires AllSendable(ms) && k < |ms|
    ensures Sent(ms, k, |Frame(ms[k])|) == Frames(ms[..k + 1])
  {
    assert ms[..k + 1] == ms[..k] + [ms[k]];
    FramesAppend(ms[..k], ms[k]);
  }

  /** Sends a series of messages until one fails; k whole frames and n bytes of the next are out. */
  method SendAll(socket: Socket, ms: seq<Message>) returns (ok: bool, ghost k: nat, ghost n: nat)
    requires AllSendable(ms)
    modifies socket`outgoing, socket`failures
    ensures ok <==> socket.failures == old(socket.failures)
    ensures ok ==> socket.outgoing == old(socket.outgoing) + Frames(ms)
    ensures !ok ==> k < |ms| && n < |Frame(ms[k])| && socket.outgoing == old(socket.outgoing) + Sent(ms, k, n)
  {
    ghost var start := socket.outgoing;
    k, n := 0, 0;
    for i := 0 to |ms|
      invariant k == i && socket.failures == old(socket.failures)
      invariant socket.outgoing == start + Frames(ms[..i])
    {
      ok, n := SendNext(socket, ms[i]);
      Assoc(start, Frames(ms[..i]), Frame(ms[i])[..n]);
      if !ok {
        return;
      }
      SentMore(ms, i);
      k := i + 1;
    }
    assert ms[..|ms|] == ms;
    return true, k, n;
  }

  /** What a receiver makes of a series that broke off: its whole messages. */
  lemma BrokenStream(ms: seq<Message>, k: nat, n: nat)
    requires AllSendable(ms)
    requires k < |ms| && n < |Frame(ms[k])|
    ensures ParseAll(Sent(ms, k, n)) == SeenAll(ms[..k]) <= SeenAll(ms)
  {
    StreamRoundTrip(ms[..k], Frame(ms[k])[..n]);
    BrokenFrame(ms[k], n);
    assert SeenAll(ms[..k]) + [] == SeenAll(ms[..k]);
  }

  /** One side sends a series of messages and closes; its bytes, in whatever chunks they went out,
      arrive at the other side in whatever chunks the transport chooses. The messages handled
      there are the first of those sent, in order, and all of them if nothing failed. */
  method Exchange(sender: Socket, receiver: Socket, ms: seq<Message>) returns (sent: bool, handled: seq<Message>)
    requires sender != receiver && AllSendable(ms)
    modifies sender`outgoing, sender`failures, receiver`incoming, receiver`failures
    ensures handled <= SeenAll(ms)
    ensures sent <==> sender.failures == old(sender.failures)
    ensures sent && receiver.failures == old(receiver.failures) ==> handled == SeenAll(ms)
  {
    ghost var start := sender.outgoing;
    var before := |sender.outgoing|;
    ghost var k, n;
    sent, k, n := SendAll(sender, ms);
    receiver.incoming := sender.outgoing[before..];
    if sent {
      assert receiver.incoming == Frames(ms);
      StreamAlone(ms);
    } else {
      assert receiver.incoming == Sent(ms, k, n);
      BrokenStream(ms, k, n);
    }
    handled := ReceiveLoop(receiver);
  }
}
