/** The in-game TCP server (internal/src/server/tcp_server.cpp): messages
    framed as a 6-byte header (u16 type, u32 body length) and a body, handled
    one at a time per connection by the handler registered for their type;
    and the server object that owns the handler table and counts its threads.

    The socket is modelled by what the operating system would answer to each
    recv/send call, scripted in advance (IoOutcome). Waiting on the socket
    event or the stop event is folded into the answer to a would-block call. */
module TcpServer {
  import opened Bytes
  import opened Options
  import opened Sequences

  const HEADER_SIZE: nat := 6
  /** Larger declared lengths end the connection. */
  const MAX_MESSAGE_LENGTH: nat := 0x100000
  /** Reply type sent for a message whose type has no handler. */
  const UNKNOWN_TYPE_REPLY: uint16 := 1

  datatype Message = Message(messageType: uint16, body: seq<uint8>)

  /** A registered handler, by the replies it hands to the sender for one
      message, in order (one element per sender call). */
  type Handler = (uint16, seq<uint8>) -> seq<Message>

  /** The header bytes: the type, then the length, both in x86 order. */
  function Header(messageType: uint16, length: uint32): (r: seq<uint8>)
    ensures |r| == HEADER_SIZE
  {
    Pow256Values();
    LittleEndian(messageType, 2) + LittleEndian(length, 4)
  }

  /** The type and length a received header declares; storing them again
      gives the same header. */
  function DecodeHeader(h: seq<uint8>): (r: (uint16, uint32))
    requires |h| == HEADER_SIZE
    ensures Header(r.0, r.1) == h
  {
    Pow256Values();
    LittleEndianOfFromLittleEndian(h[..2]);
    LittleEndianOfFromLittleEndian(h[2..]);
    assert h == h[..2] + h[2..];
    (FromLittleEndian(h[..2]), FromLittleEndian(h[2..]))
  }

  /** A header decodes to the type and length it was made from. */
  lemma HeaderRoundTrip(messageType: uint16, length: uint32)
    ensures DecodeHeader(Header(messageType, length)) == (messageType, length)
  {
    Pow256Values();
    var t, l := LittleEndian(messageType, 2), LittleEndian(length, 4);
    FromLittleEndianOfLittleEndian(messageType, 2);
    FromLittleEndianOfLittleEndian(length, 4);
    assert (t + l)[..2] == t && (t + l)[2..] == l;
  }

  /** A whole message on the wire. The length field is the body size
      converted to uint32_t. */
  function Frame(m: Message): seq<uint8>
  {
    Header(m.messageType, Wrap32(|m.body|)) + m.body
  }

  /** What a connection accepts off the front of bytes: the first message
      and what follows it; None when the header or body is incomplete or
      the declared length is above the limit. */
  function ReadFrame(bytes: seq<uint8>): (r: Option<(Message, seq<uint8>)>)
    ensures r.Some? ==> Frame(r.value.0) + r.value.1 == bytes && |r.value.0.body| <= MAX_MESSAGE_LENGTH
  {
    if |bytes| < HEADER_SIZE then None
    else
      var (messageType, length) := DecodeHeader(bytes[..HEADER_SIZE]);
      if length > MAX_MESSAGE_LENGTH || |bytes| - HEADER_SIZE < length then None
      else
        var body := bytes[HEADER_SIZE..HEADER_SIZE + length];
        Wrap32Fits(|body|);
        assert bytes == bytes[..HEADER_SIZE] + body + bytes[HEADER_SIZE + length..];
        Some((Message(messageType, body), bytes[HEADER_SIZE + length..]))
  }

  /** Every message within the limit is read back as sent, whatever follows it. */
  lemma FrameRoundTrip(m: Message, rest: seq<uint8>)
    requires |m.body| <= MAX_MESSAGE_LENGTH
    ensures ReadFrame(Frame(m) + rest) == Some((m, rest))
  {
    Wrap32Fits(|m.body|);
    HeaderRoundTrip(m.messageType, |m.body|);
    var h := Header(m.messageType, |m.body|);
    var bytes := Frame(m) + rest;
    assert bytes == h + (m.body + rest);
    assert bytes[..HEADER_SIZE] == h;
    assert bytes[HEADER_SIZE..HEADER_SIZE + |m.body|] == m.body;
    assert bytes[HEADER_SIZE + |m.body|..] == rest;
  }

  /** The replies one message gets: those of its type's handler, or a single
      type-1 reply whose 2-byte body is the unknown type. */
  function Dispatch(handlers: map<uint16, Handler>, m: Message): (r: seq<Message>)
    ensures m.messageType in handlers ==> r == handlers[m.messageType](m.messageType, m.body)
    ensures m.messageType !in handlers ==>
      |r| == 1 && r[0].messageType == UNKNOWN_TYPE_REPLY && |r[0].body| == 2 && FromLittleEndian(r[0].body) == m.messageType
  {
    if m.messageType in handlers then handlers[m.messageType](m.messageType, m.body)
    else [Message(UNKNOWN_TYPE_REPLY, U16Bytes(m.messageType))]
  }

  /** What the system answers to one recv or send call: up to limit bytes
      moved (recv reads 0 when nothing is left: the peer closed), a
      would-block error after which waiting on the events succeeds or fails
      (stop requested, wait failure, socket closed), or another error. */
  datatype IoOutcome = Moved(limit: nat) | WouldBlock(waitSucceeds: bool) | Failed

  /** A connected, non-blocking peer socket. */
  class Socket {
    /** Bytes the peer has sent that have not been received yet. */
    var inbound: seq<uint8>
    /** Bytes delivered to the peer. */
    var outbound: seq<uint8>
    /** Answers to the coming recv calls; once exhausted, recv reads 0. */
    var recvOutcomes: seq<IoOutcome>
    /** Answers to the coming send calls; once exhausted, send would block
        and the wait fails. */
    var sendOutcomes: seq<IoOutcome>

    constructor (inbound: seq<uint8>, recvOutcomes: seq<IoOutcome>, sendOutcomes: seq<IoOutcome>)
      ensures this.inbound == inbound && outbound == []
      ensures this.recvOutcomes == recvOutcomes && this.sendOutcomes == sendOutcomes
    {
      this.inbound := inbound;
      outbound := [];
      this.recvOutcomes := recvOutcomes;
      this.sendOutcomes := sendOutcomes;
    }
  }

  /** What a run of recv or send calls achieved: the number of bytes moved,
      whether that is all that was asked for, and the answers still to come. */
  datatype Transfer = Transfer(moved: nat, ok: bool, rest: seq<IoOutcome>)

  /** peer_read's loop on the answers to its recv calls, with `available`
      bytes in the stream and `need` still to receive, one answer at a time:
      nothing left to receive succeeds; a recv that moves nothing (the peer
      closed) fails; a chunk is taken and the loop goes on; a would-block
      waits, and a failed wait ends the read. An error other than
      would-block ends the read as well; the source retries it instead
      (RecvAsWritten). */
  function RecvResult(available: nat, outcomes: seq<IoOutcome>, need: nat): (r: Transfer)
    ensures r.moved <= need && r.moved <= available
    ensures r.ok <==> r.moved == need
    ensures |r.rest| <= |outcomes| && (need > 0 && r.ok ==> |r.rest| < |outcomes|)
    decreases |outcomes|
  {
    if need == 0 then Transfer(0, true, outcomes)
    else if outcomes == [] then Transfer(0, false, [])
    else
      match outcomes[0]
      case Moved(limit) =>
        var count := Min(Min(limit, need), available);
        if count == 0 then Transfer(0, false, outcomes[1..])
        else
          var r := RecvResult(available - count, outcomes[1..], need - count);
          Transfer(count + r.moved, r.ok, r.rest)
      case WouldBlock(waitSucceeds) =>
        if waitSucceeds then RecvResult(available, outcomes[1..], need) else Transfer(0, false, outcomes[1..])
      case Failed => Transfer(0, false, outcomes[1..])
  }

  /** peer_write's loop on the answers to its send calls, with `need` bytes
      still to send: like RecvResult, except that a send moving nothing
      just goes on. */
  function SendResult(outcomes: seq<IoOutcome>, need: nat): (r: Transfer)
    ensures r.moved <= need
    ensures r.ok <==> r.moved == need
    ensures |r.rest| <= |outcomes|
    decreases |outcomes|
  {
    if need == 0 then Transfer(0, true, outcomes)
    else if outcomes == [] then Transfer(0, false, [])
    else
      match outcomes[0]
      case Moved(limit) =>
        var count := Min(limit, need);
        var r := SendResult(outcomes[1..], need - count);
        Transfer(count + r.moved, r.ok, r.rest)
      case WouldBlock(waitSucceeds) =>
        if waitSucceeds then SendResult(outcomes[1..], need) else Transfer(0, false, outcomes[1..])
      case Failed => Transfer(0, false, outcomes[1..])
  }

  /** peer_read's loop as written: an error other than would-block is
      retried at once. */
  function RecvAsWritten(available: nat, outcomes: seq<IoOutcome>, need: nat): (r: Transfer)
    ensures r.moved <= need && r.moved <= available
    ensures r.ok <==> r.moved == need
    decreases |outcomes|
  {
    if need == 0 then Transfer(0, true, outcomes)
    else if outcomes == [] then Transfer(0, false, [])
    else
      match outcomes[0]
      case Moved(limit) =>
        var count := Min(Min(limit, need), available);
        if count == 0 then Transfer(0, false, outcomes[1..])
        else
          var r := RecvAsWritten(available - count, outcomes[1..], need - count);
          Transfer(count + r.moved, r.ok, r.rest)
      case WouldBlock(waitSucceeds) =>
        if waitSucceeds then RecvAsWritten(available, outcomes[1..], need) else Transfer(0, false, outcomes[1..])
      case Failed => RecvAsWritten(available, outcomes[1..], need)
  }

  /** peer_write's loop as written: an error other than would-block is
      retried at once. */
  function SendAsWritten(outcomes: seq<IoOutcome>, need: nat): (r: Transfer)
    ensures r.moved <= need
    ensures r.ok <==> r.moved == need
    decreases |outcomes|
  {
    if need == 0 then Transfer(0, true, outcomes)
    else if outcomes == [] then Transfer(0, false, [])
    else
      match outcomes[0]
      case Moved(limit) =>
        var count := Min(limit, need);
        var r := SendAsWritten(outcomes[1..], need - count);
        Transfer(count + r.moved, r.ok, r.rest)
      case WouldBlock(waitSucceeds) =>
        if waitSucceeds then SendAsWritten(outcomes[1..], need) else Transfer(0, false, outcomes[1..])
      case Failed => SendAsWritten(outcomes[1..], need)
  }

  /** n answers that are each an error other than would-block. */
  function Failures(n: nat): (r: seq<IoOutcome>)
    ensures |r| == n
    decreases n
  {
    if n == 0 then [] else [Failed] + Failures(n - 1)
  }

  /** As written, errors in a row are skipped: however many there are, none
      moves a byte or ends the read, so a socket that keeps failing keeps
      peer_read going for ever. */
  lemma {:induction false} RecvRetriesFailures(available: nat, n: nat, rest: seq<IoOutcome>, need: nat)
    requires need > 0
    ensures RecvAsWritten(available, Failures(n) + rest, need) == RecvAsWritten(available, rest, need)
    ensures RecvAsWritten(available, Failures(n), need) == Transfer(0, false, [])
    decreases n
  {
    if n == 0 {
      assert Failures(n) + rest == rest;
    } else {
      assert (Failures(n) + rest)[0] == Failed;
      assert (Failures(n) + rest)[1..] == Failures(n - 1) + rest;
      RecvRetriesFailures(available, n - 1, rest, need);
    }
    assert Failures(n) + [] == Failures(n);
  }

  /** As written, peer_write skips errors in a row the same way. */
  lemma {:induction false} SendRetriesFailures(n: nat, rest: seq<IoOutcome>, need: nat)
    requires need > 0
    ensures SendAsWritten(Failures(n) + rest, need) == SendAsWritten(rest, need)
    ensures SendAsWritten(Failures(n), need) == Transfer(0, false, [])
    decreases n
  {
    if n == 0 {
      assert Failures(n) + rest == rest;
    } else {
      assert (Failures(n) + rest)[0] == Failed;
      assert (Failures(n) + rest)[1..] == Failures(n - 1) + rest;
      SendRetriesFailures(n - 1, rest, need);
    }
    assert Failures(n) + [] == Failures(n);
  }

  /** The would-block answers among some answers after which the wait
      succeeds. */
  function Waits(outcomes: seq<IoOutcome>): nat
    decreases |outcomes|
  {
    if outcomes == [] then 0
    else (if outcomes[0] == WouldBlock(true) then 1 else 0) + Waits(outcomes[1..])
  }

  /** A read makes at most one recv call per byte received and per
      successful wait, plus the call that ends it: errors cannot keep it
      going. */
  lemma {:induction false} RecvCallsBounded(available: nat, outcomes: seq<IoOutcome>, need: nat)
    ensures var r := RecvResult(available, outcomes, need); |outcomes| - |r.rest| <= r.moved + Waits(outcomes) + 1
    decreases |outcomes|
  {
    if need > 0 && outcomes != [] {
      match outcomes[0]
      case Moved(limit) =>
        var count := Min(Min(limit, need), available);
        if count > 0 {
          RecvCallsBounded(available - count, outcomes[1..], need - count);
        }
      case WouldBlock(waitSucceeds) =>
        if waitSucceeds {
          RecvCallsBounded(available, outcomes[1..], need);
        }
      case Failed =>
    }
  }

  /** A write ends at the first error: it moves nothing more. */
  lemma FailureEndsWrite(rest: seq<IoOutcome>, need: nat)
    requires need > 0
    ensures SendResult([Failed] + rest, need) == Transfer(0, false, rest)
  {
    assert ([Failed] + rest)[1..] == rest;
  }

  /** No answer is an error other than would-block. */
  ghost predicate NoFailures(outcomes: seq<IoOutcome>)
  {
    forall i | 0 <= i < |outcomes| :: !outcomes[i].Failed?
  }

  /** Where no error comes, peer_read does what the source's loop does. */
  lemma {:induction false} RecvAgreesWithoutFailures(available: nat, outcomes: seq<IoOutcome>, need: nat)
    requires NoFailures(outcomes)
    ensures RecvResult(available, outcomes, need) == RecvAsWritten(available, outcomes, need)
    decreases |outcomes|
  {
    if need > 0 && outcomes != [] {
      assert !outcomes[0].Failed?;
      assert NoFailures(outcomes[1..]) by {
        forall i | 0 <= i < |outcomes| - 1 ensures !outcomes[1..][i].Failed? {
          assert outcomes[1..][i] == outcomes[i + 1];
        }
      }
      match outcomes[0]
      case Moved(limit) =>
        var count := Min(Min(limit, need), available);
        if count > 0 {
          RecvAgreesWithoutFailures(available - count, outcomes[1..], need - count);
        }
      case WouldBlock(waitSucceeds) =>
        RecvAgreesWithoutFailures(available, outcomes[1..], need);
    }
  }

  /** Where no error comes, peer_write does what the source's loop does. */
  lemma {:induction false} SendAgreesWithoutFailures(outcomes: seq<IoOutcome>, need: nat)
    requires NoFailures(outcomes)
    ensures SendResult(outcomes, need) == SendAsWritten(outcomes, need)
    decreases |outcomes|
  {
    if need > 0 && outcomes != [] {
      assert !outcomes[0].Failed?;
      assert NoFailures(outcomes[1..]) by {
        forall i | 0 <= i < |outcomes| - 1 ensures !outcomes[1..][i].Failed? {
          assert outcomes[1..][i] == outcomes[i + 1];
        }
      }
      match outcomes[0]
      case Moved(limit) =>
        SendAgreesWithoutFailures(outcomes[1..], need - Min(limit, need));
      case WouldBlock(waitSucceeds) =>
        SendAgreesWithoutFailures(outcomes[1..], need);
    }
  }

  /** A transfer that follows `before` bytes already moved. */
  function After(before: nat, r: Transfer): Transfer
  {
    Transfer(before + r.moved, r.ok, r.rest)
  }

  /** A recv call that takes count bytes, and the calls after it. */
  lemma RecvTakes(available: nat, outcomes: seq<IoOutcome>, need: nat, count: nat)
    requires need > 0 && outcomes != [] && outcomes[0].Moved?
    requires count == Min(Min(outcomes[0].limit, need), available) > 0
    ensures RecvResult(available, outcomes, need) == After(count, RecvResult(available - count, outcomes[1..], need - count))
  {
  }

  /** A recv call that would block, a wait that succeeds, and the calls
      after it. */
  lemma RecvWaits(available: nat, outcomes: seq<IoOutcome>, need: nat)
    requires need > 0 && outcomes != [] && outcomes[0] == WouldBlock(true)
    ensures RecvResult(available, outcomes, need) == RecvResult(available, outcomes[1..], need)
  {
  }

  /** peer_read: fills buffer from the stream, with the result RecvResult
      gives: it succeeds exactly when the whole buffer was received, takes
      no more than that off the stream, and leaves what it took at the
      front of the buffer. */
  method PeerRead(peer: Socket, buffer: array<uint8>) returns (ok: bool, ghost received: seq<uint8>)
    modifies peer`inbound, peer`recvOutcomes, buffer
    ensures var r := RecvResult(|old(peer.inbound)|, old(peer.recvOutcomes), buffer.Length);
      ok == r.ok && |received| == r.moved && peer.recvOutcomes == r.rest
    ensures old(peer.inbound) == received + peer.inbound
    ensures |received| <= buffer.Length && buffer[..|received|] == received
    ensures ok <==> |received| == buffer.Length
  {
    var total := 0;
    var going := true;
    received := [];
    ghost var stream, script := peer.inbound, peer.recvOutcomes;
    while going && total < buffer.Length
      invariant total == |received| <= buffer.Length
      invariant stream == received + peer.inbound
      invariant buffer[..total] == received
      invariant going ==>
        RecvResult(|stream|, script, buffer.Length) == After(total, RecvResult(|peer.inbound|, peer.recvOutcomes, buffer.Length - total))
      invariant !going ==> RecvResult(|stream|, script, buffer.Length) == Transfer(total, false, peer.recvOutcomes)
      decreases going, |peer.recvOutcomes|
    {
      var chunk;
      going, chunk := RecvOnce(peer, buffer, total);
      received := received + chunk;
      total := total + |chunk|;
    }
    ok := going;
  }

  /** One turn of peer_read's loop: one recv call, and the wait after a
      would-block. What it receives is stored at offset; it goes on exactly
      when RecvResult does. */
  method RecvOnce(peer: Socket, buffer: array<uint8>, offset: nat) returns (going: bool, chunk: seq<uint8>)
    requires offset < buffer.Length
    modifies peer`inbound, peer`recvOutcomes, buffer
    ensures old(peer.inbound) == chunk + peer.inbound && offset + |chunk| <= buffer.Length
    ensures buffer[..offset + |chunk|] == old(buffer[..offset]) + chunk
    ensures going ==> |peer.recvOutcomes| < |old(peer.recvOutcomes)|
    ensures !going ==> chunk == []
    ensures var r := RecvResult(|old(peer.inbound)|, old(peer.recvOutcomes), buffer.Length - offset);
      if going then r == After(|chunk|, RecvResult(|peer.inbound|, peer.recvOutcomes, buffer.Length - offset - |chunk|))
      else r == Transfer(0, false, peer.recvOutcomes)
  {
    chunk := [];
    if peer.recvOutcomes == [] {
      return false, chunk;
    }
    ghost var available, need, outcomes := |peer.inbound|, buffer.Length - offset, peer.recvOutcomes;
    var outcome := peer.recvOutcomes[0];
    peer.recvOutcomes := peer.recvOutcomes[1..];
    match outcome
    case Moved(limit) =>
      var count := Min(Min(limit, buffer.Length - offset), |peer.inbound|);
      if count == 0 {
        return false, chunk;
      }
      RecvTakes(available, outcomes, need, count);
      chunk := TakeInto(peer, buffer, offset, count);
      going := true;
    case WouldBlock(waitSucceeds) =>
      if waitSucceeds {
        RecvWaits(available, outcomes, need);
      }
      going := waitSucceeds;
    case Failed =>
      going := false;
  }

  /** The bytes one recv call receives: count bytes off the front of the
      stream, stored into buffer at offset after what is already there. */
  method TakeInto(peer: Socket, buffer: array<uint8>, offset: nat, count: nat) returns (chunk: seq<uint8>)
    requires offset + count <= buffer.Length && count <= |peer.inbound|
    modifies peer`inbound, buffer
    ensures old(peer.inbound) == chunk + peer.inbound && |chunk| == count
    ensures buffer[..offset + count] == old(buffer[..offset]) + chunk
  {
    chunk := peer.inbound[..count];
    forall k | 0 <= k < count {
      buffer[offset + k] := chunk[k];
    }
    assert buffer[..offset + count] == buffer[..offset] + chunk;
    assert peer.inbound == chunk + peer.inbound[count..];
    peer.inbound := peer.inbound[count..];
  }

  /** peer_write: sends buffer, with the result SendResult gives: it
      succeeds exactly when all of it was delivered, and what was delivered
      is a prefix of the buffer. */
  method PeerWrite(peer: Socket, buffer: seq<uint8>) returns (ok: bool, ghost written: seq<uint8>)
    modifies peer`outbound, peer`sendOutcomes
    ensures var r := SendResult(old(peer.sendOutcomes), |buffer|);
      ok == r.ok && |written| == r.moved && peer.sendOutcomes == r.rest
    ensures peer.outbound == old(peer.outbound) + written
    ensures |written| <= |buffer| && written == buffer[..|written|]
    ensures ok <==> |written| == |buffer|
  {
    var total := 0;
    written := [];
    ghost var start, script := peer.outbound, peer.sendOutcomes;
    while total < |buffer|
      invariant 0 <= total <= |buffer| && written == buffer[..total]
      invariant peer.outbound == start + written
      invariant var r := SendResult(peer.sendOutcomes, |buffer| - total);
        SendResult(script, |buffer|) == Transfer(total + r.moved, r.ok, r.rest)
      decreases |peer.sendOutcomes|
    {
      if peer.sendOutcomes == [] {
        return false, written;
      }
      var outcome := peer.sendOutcomes[0];
      peer.sendOutcomes := peer.sendOutcomes[1..];
      match outcome
      case Moved(limit) =>
        var count := Min(limit, |buffer| - total);
        assert buffer[..total + count] == buffer[..total] + buffer[total..total + count];
        peer.outbound := peer.outbound + buffer[total..total + count];
        written := written + buffer[total..total + count];
        total := total + count;
      case WouldBlock(waitSucceeds) =>
        if !waitSucceeds {
          return false, written;
        }
      case Failed =>
        return false, written;
    }
    ok := true;
  }

  function Min(a: nat, b: nat): (r: nat)
    ensures r <= a && r <= b && (r == a || r == b)
  {
    if a <= b then a else b
  }

  /** One sender call, with the bytes it put on the wire and its result. */
  datatype Delivery = Delivery(reply: Message, bytes: seq<uint8>, ok: bool)

  /** A send puts a prefix of the frame on the wire, and succeeds exactly
      when that prefix is the whole frame. */
  ghost predicate Delivered(d: Delivery)
  {
    var frame := Frame(d.reply);
    |d.bytes| <= |frame| && d.bytes == frame[..|d.bytes|] && (d.ok <==> |d.bytes| == |frame|)
  }

  /** The sender's two peer_write calls on the answers to the send calls:
      what they deliver of the reply's frame, whether all of it went, and
      the answers left. The body is not sent when the header fails. */
  function SenderResult(reply: Message, outcomes: seq<IoOutcome>): (r: (Delivery, seq<IoOutcome>))
    ensures r.0.reply == reply && Delivered(r.0)
    ensures |r.1| <= |outcomes|
  {
    var h := Header(reply.messageType, Wrap32(|reply.body|));
    assert Frame(reply) == h + reply.body;
    var w := SendResult(outcomes, HEADER_SIZE);
    if !w.ok then
      assert Frame(reply)[..w.moved] == h[..w.moved];
      (Delivery(reply, h[..w.moved], false), w.rest)
    else
      var b := SendResult(w.rest, |reply.body|);
      assert Frame(reply)[..HEADER_SIZE + b.moved] == h + reply.body[..b.moved];
      (Delivery(reply, h + reply.body[..b.moved], b.ok), b.rest)
  }

  /** The sender: header (type, body size) into the shared header buffer,
      then header and body; the body is not sent when the header fails. */
  method Send(peer: Socket, header: array<uint8>, reply: Message) returns (success: bool, ghost d: Delivery)
    requires header.Length == HEADER_SIZE
    modifies peer`outbound, peer`sendOutcomes, header
    ensures header[..] == Header(reply.messageType, Wrap32(|reply.body|))
    ensures (d, peer.sendOutcomes) == SenderResult(reply, old(peer.sendOutcomes))
    ensures d.reply == reply && d.ok == success && Delivered(d)
    ensures peer.outbound == old(peer.outbound) + d.bytes
  {
    var h := Header(reply.messageType, Wrap32(|reply.body|));
    forall k | 0 <= k < HEADER_SIZE {
      header[k] := h[k];
    }
    assert header[..] == h;
    var headerSent, w1 := PeerWrite(peer, header[..]);
    assert Frame(reply) == h + reply.body;
    if !headerSent {
      assert Frame(reply)[..|w1|] == h[..|w1|];
      return false, Delivery(reply, w1, false);
    }
    var bodySent, w2 := PeerWrite(peer, reply.body);
    success := bodySent;
    d := Delivery(reply, w1 + w2, success);
    assert w1 == h;
    assert Frame(reply)[..|w1 + w2|] == h + reply.body[..|w2|];
  }

  /** The replies a log of sends carries, in order. */
  function Replies(log: seq<Delivery>): (r: seq<Message>)
    ensures |r| == |log|
    decreases |log|
  {
    if log == [] then [] else Replies(log[..|log| - 1]) + [log[|log| - 1].reply]
  }

  /** The bytes a log of sends put on the wire, in order. */
  function Wire(log: seq<Delivery>): seq<uint8>
    decreases |log|
  {
    if log == [] then [] else Wire(log[..|log| - 1]) + log[|log| - 1].bytes
  }

  /** Every send in the log delivered a prefix of its frame. */
  ghost predicate AllDelivered(log: seq<Delivery>)
    decreases |log|
  {
    log == [] || (AllDelivered(log[..|log| - 1]) && Delivered(log[|log| - 1]))
  }

  /** The sender called once per reply a handler produces, in order, on
      the answers to the send calls: the log of its calls and the answers
      left. */
  function SendAllResult(replies: seq<Message>, outcomes: seq<IoOutcome>): (r: (seq<Delivery>, seq<IoOutcome>))
    ensures Replies(r.0) == replies && AllDelivered(r.0)
    ensures |r.1| <= |outcomes|
    decreases |replies|
  {
    if replies == [] then ([], outcomes)
    else
      var (d, rest) := SenderResult(replies[0], outcomes);
      var (more, left) := SendAllResult(replies[1..], rest);
      LogSnoc([], d);
      assert [] + [d] == [d];
      LogAppend([d], more);
      assert replies == [replies[0]] + replies[1..];
      ([d] + more, left)
  }

  /** SendAllResult, one sender call after another. */
  lemma SendAllFirst(replies: seq<Message>, i: nat, outcomes: seq<IoOutcome>)
    requires i < |replies|
    ensures var (d, rest) := SenderResult(replies[i], outcomes);
      var more := SendAllResult(replies[i + 1..], rest);
      SendAllResult(replies[i..], outcomes) == ([d] + more.0, more.1)
  {
    assert replies[i..][1..] == replies[i + 1..];
  }

  /** The sender called once per reply a handler produces, in order. The
      flag `success` ends up holding the result of the last call (true when
      there is none), whatever the earlier calls returned. */
  method SendAll(peer: Socket, header: array<uint8>, replies: seq<Message>) returns (success: bool, ghost log: seq<Delivery>)
    requires header.Length == HEADER_SIZE
    modifies peer`outbound, peer`sendOutcomes, header
    ensures (log, peer.sendOutcomes) == SendAllResult(replies, old(peer.sendOutcomes))
    ensures Replies(log) == replies && AllDelivered(log)
    ensures success == LastSucceeded(log)
    ensures peer.outbound == old(peer.outbound) + Wire(log)
  {
    success := true;
    log := [];
    ghost var start, script := peer.outbound, peer.sendOutcomes;
    assert replies[0..] == replies;
    assert log + SendAllResult(replies, script).0 == SendAllResult(replies, script).0;
    for i := 0 to |replies|
      invariant var more := SendAllResult(replies[i..], peer.sendOutcomes);
        SendAllResult(replies, script) == (log + more.0, more.1)
      invariant success == LastSucceeded(log)
      invariant peer.outbound == start + Wire(log)
    {
      SendAllFirst(replies, i, peer.sendOutcomes);
      ghost var before := log;
      ghost var d;
      success, d, log := SendLogged(peer, header, replies[i], log, start);
      AppendThree(before, [d], SendAllResult(replies[i + 1..], peer.sendOutcomes).0);
    }
    assert replies[|replies|..] == [];
    assert log + [] == log;
  }

  /** The result the connection goes on by: that of the last send, or
      true when nothing was sent. */
  function LastSucceeded(log: seq<Delivery>): bool
  {
    log == [] || log[|log| - 1].ok
  }

  /** One sender call, recorded at the end of the log of the connection's
      sends. */
  method SendLogged(peer: Socket, header: array<uint8>, reply: Message, ghost log: seq<Delivery>, ghost start: seq<uint8>)
    returns (success: bool, ghost d: Delivery, ghost logged: seq<Delivery>)
    requires header.Length == HEADER_SIZE
    requires peer.outbound == start + Wire(log)
    modifies peer`outbound, peer`sendOutcomes, header
    ensures (d, peer.sendOutcomes) == SenderResult(reply, old(peer.sendOutcomes))
    ensures logged == log + [d]
    ensures success == LastSucceeded(logged)
    ensures peer.outbound == start + Wire(logged)
  {
    success, d := Send(peer, header, reply);
    LogSnoc(log, d);
    logged := log + [d];
  }

  /** A log with one more send. */
  lemma LogSnoc(log: seq<Delivery>, d: Delivery)
    ensures Replies(log + [d]) == Replies(log) + [d.reply]
    ensures Wire(log + [d]) == Wire(log) + d.bytes
    ensures AllDelivered(log + [d]) <==> AllDelivered(log) && Delivered(d)
    ensures (log + [d])[|log|] == d
  {
    assert (log + [d])[..|log|] == log;
  }

  /** Two logs one after the other. */
  lemma {:induction false} LogAppend(log: seq<Delivery>, more: seq<Delivery>)
    ensures Replies(log + more) == Replies(log) + Replies(more)
    ensures Wire(log + more) == Wire(log) + Wire(more)
    ensures AllDelivered(log) && AllDelivered(more) ==> AllDelivered(log + more)
    decreases |more|
  {
    if more == [] {
      assert log + more == log;
    } else {
      var init, last := more[..|more| - 1], more[|more| - 1];
      LogAppend(log, init);
      assert more == init + [last];
      assert log + more == (log + init) + [last];
      LogSnoc(log + init, last);
      LogSnoc(init, last);
    }
  }

  /** The frames of a sequence of messages, one after the other. */
  function Frames(ms: seq<Message>): seq<uint8>
    decreases |ms|
  {
    if ms == [] then [] else Frames(ms[..|ms| - 1]) + Frame(ms[|ms| - 1])
  }

  /** Every message declares a length within the limit. */
  ghost predicate WithinLimit(ms: seq<Message>)
    decreases |ms|
  {
    ms == [] || (WithinLimit(ms[..|ms| - 1]) && |ms[|ms| - 1].body| <= MAX_MESSAGE_LENGTH)
  }

  lemma {:induction false} WithinLimitEach(ms: seq<Message>)
    ensures WithinLimit(ms) <==> forall i | 0 <= i < |ms| :: |ms[i].body| <= MAX_MESSAGE_LENGTH
    decreases |ms|
  {
    if ms != [] {
      var init := ms[..|ms| - 1];
      WithinLimitEach(init);
      assert forall i | 0 <= i < |init| :: init[i] == ms[i];
    }
  }

  /** The replies all handled messages get, in order. */
  function AllReplies(handlers: map<uint16, Handler>, handled: seq<Message>): seq<Message>
    decreases |handled|
  {
    if handled == [] then []
    else AllReplies(handlers, handled[..|handled| - 1]) + Dispatch(handlers, handled[|handled| - 1])
  }

  /** One turn of peer_handler's loop once a header has been read, on what
      follows the header in the stream and the answers to come. */
  datatype Turn =
    | Oversized
    | ShortBody(inbound: seq<uint8>, recv: seq<IoOutcome>)
    | Served(message: Message, sent: seq<Delivery>, inbound: seq<uint8>, recv: seq<IoOutcome>, send: seq<IoOutcome>)

  /** The turn after a header: a declared length above the limit ends the
      connection before anything more is read; a body that cannot be read
      ends it too; otherwise the message is the header and the next length
      bytes of the stream, and its replies are sent. */
  function TurnAfterHeader(handlers: map<uint16, Handler>, header: seq<uint8>, stream: seq<uint8>,
                           recv: seq<IoOutcome>, send: seq<IoOutcome>): (t: Turn)
    requires |header| == HEADER_SIZE
    ensures t.Oversized? <==> DecodeHeader(header).1 > MAX_MESSAGE_LENGTH
    ensures !t.Oversized? ==> |t.recv| <= |recv|
    ensures t.Served? ==> header + stream == Frame(t.message) + t.inbound && |t.message.body| <= MAX_MESSAGE_LENGTH
    ensures t.Served? ==> Replies(t.sent) == Dispatch(handlers, t.message) && AllDelivered(t.sent)
  {
    var (messageType, length) := DecodeHeader(header);
    if length > MAX_MESSAGE_LENGTH then Oversized
    else
      var b := RecvResult(|stream|, recv, length);
      if !b.ok then ShortBody(stream[b.moved..], b.rest)
      else
        var m := Message(messageType, stream[..length]);
        Wrap32Fits(length);
        assert Frame(m) == header + stream[..length];
        AppendThree(header, stream[..length], stream[length..]);
        assert stream[..length] + stream[length..] == stream;
        var (sent, left) := SendAllResult(Dispatch(handlers, m), send);
        Served(m, sent, stream[length..], b.rest, left)
  }

  /** Why a connection's loop ended. */
  datatype StopReason =
    | NotConfigured  // the socket could not be made non-blocking
    | HeaderNotRead
    | LengthTooHigh
    | BodyNotRead
    | SendFailed

  /** A connection from start to end: the messages handled, the sender
      calls made, why it ended, and what is left of the stream and of the
      answers to the recv and send calls. */
  datatype Session = Session(handled: seq<Message>, log: seq<Delivery>, stop: StopReason,
                             inbound: seq<uint8>, recv: seq<IoOutcome>, send: seq<IoOutcome>)

  /** A session after some messages already handled. */
  function Resume(handled: seq<Message>, log: seq<Delivery>, s: Session): Session
  {
    s.(handled := handled + s.handled, log := log + s.log)
  }

  /** peer_handler's loop on a stream and the answers to come: a header
      that cannot be read ends it; otherwise one turn, and the loop goes on
      exactly when the message was served and its last send succeeded. */
  function Serve(handlers: map<uint16, Handler>, stream: seq<uint8>, recv: seq<IoOutcome>, send: seq<IoOutcome>): (s: Session)
    ensures s.stop != NotConfigured && |s.recv| <= |recv|
    ensures s.stop == SendFailed ==> s.handled != [] && s.log != []
    decreases |recv|
  {
    var h := RecvResult(|stream|, recv, HEADER_SIZE);
    if !h.ok then Session([], [], HeaderNotRead, stream[h.moved..], h.rest, send)
    else
      match TurnAfterHeader(handlers, stream[..HEADER_SIZE], stream[HEADER_SIZE..], h.rest, send)
      case Oversized => Session([], [], LengthTooHigh, stream[HEADER_SIZE..], h.rest, send)
      case ShortBody(inbound, left) => Session([], [], BodyNotRead, inbound, left, send)
      case Served(m, sent, inbound, left, sendLeft) =>
        if !LastSucceeded(sent) then Session([m], sent, SendFailed, inbound, left, sendLeft)
        else Resume([m], sent, Serve(handlers, inbound, left, sendLeft))
  }

  lemma ResumeResume(handled: seq<Message>, log: seq<Delivery>, more: seq<Message>, sent: seq<Delivery>, s: Session)
    ensures Resume(handled, log, Resume(more, sent, s)) == Resume(handled + more, log + sent, s)
  {
    AppendThree(handled, more, s.handled);
    AppendThree(log, sent, s.log);
  }

  /** The result of the last send of two logs one after the other. */
  lemma LastSucceededAppend(log: seq<Delivery>, more: seq<Delivery>)
    ensures LastSucceeded(log + more) == if more == [] then LastSucceeded(log) else LastSucceeded(more)
  {
    if more == [] {
      assert log + more == log;
    }
  }

  /** A connection ends on a failed send exactly when the last sender call
      it made failed: every other ending follows a successful last send, or
      no send at all. */
  lemma {:induction false} ServeEndsOnFailedSend(handlers: map<uint16, Handler>, stream: seq<uint8>, recv: seq<IoOutcome>, send: seq<IoOutcome>)
    ensures var s := Serve(handlers, stream, recv, send); s.stop == SendFailed <==> !LastSucceeded(s.log)
    decreases |recv|
  {
    var h := RecvResult(|stream|, recv, HEADER_SIZE);
    if h.ok {
      match TurnAfterHeader(handlers, stream[..HEADER_SIZE], stream[HEADER_SIZE..], h.rest, send)
      case Oversized =>
      case ShortBody(_, _) =>
      case Served(m, sent, inbound, left, sendLeft) =>
        if LastSucceeded(sent) {
          ServeEndsOnFailedSend(handlers, inbound, left, sendLeft);
          LastSucceededAppend(sent, Serve(handlers, inbound, left, sendLeft).log);
        }
    }
  }

  /** ActualTcpServer: the handler table, the started flag and the number
      of live threads (accept thread and peer threads), all under one mutex
      in the source. */
  class Server {
    var started: bool
    var threadCount: uint32
    var handlers: map<uint16, Handler>
    var stopRequested: bool
    /** Accept threads launched so far. */
    ghost var acceptThreads: nat
    const port: int

    /** The accept thread is launched at most once, and only by start(). */
    ghost predicate Valid()
      reads this
    {
      acceptThreads <= 1 && (acceptThreads == 1 ==> started)
    }

    constructor (port: int)
      ensures Valid() && this.port == port
      ensures !started && threadCount == 0 && handlers == map[] && !stopRequested && acceptThreads == 0
    {
      this.port := port;
      started := false;
      threadCount := 0;
      handlers := map[];
      stopRequested := false;
      acceptThreads := 0;
    }

    /** add_handler: the type's entry is the new handler, replacing any
        earlier one; the other entries stay. */
    method AddHandler(messageType: uint16, handler: Handler)
      modifies this`handlers
      ensures handlers == old(handlers)[messageType := handler]
    {
      handlers := handlers[messageType := handler];
    }

    /** try_start_thread: counts the thread first and takes the count back
        when the thread cannot be created. */
    method TryStartThread(threadCreated: bool) returns (ok: bool)
      modifies this`threadCount
      ensures ok == threadCreated
      ensures threadCount == if ok then Wrap32(old(threadCount) + 1) else old(threadCount)
    {
      threadCount := Wrap32(threadCount + 1);
      if !threadCreated {
        threadCount := Wrap32(threadCount - 1);
        return false;
      }
      ok := true;
    }

    /** start: the first call marks the server started and tries to launch
        the accept thread; every later call changes nothing. */
    method Start(threadCreated: bool)
      requires Valid()
      modifies this`started, this`threadCount, this`acceptThreads
      ensures Valid() && started
      ensures old(started) ==> threadCount == old(threadCount) && acceptThreads == old(acceptThreads)
      ensures !old(started) ==> acceptThreads == (if threadCreated then 1 else 0)
      ensures !old(started) ==> threadCount == if threadCreated then Wrap32(old(threadCount) + 1) else old(threadCount)
    {
      if !started {
        started := true;
        var launched := TryStartThread(threadCreated);
        if launched {
          acceptThreads := 1;
        } else {
          acceptThreads := 0;
        }
      }
    }

    /** end_thread: a thread leaving takes itself off the count. */
    method EndThread()
      modifies this`threadCount
      ensures threadCount == Wrap32(old(threadCount) - 1)
    {
      threadCount := Wrap32(threadCount - 1);
    }

    /** The destructor: signals the stop event and returns only once the
        count of live threads is 0. Each wake-up of the wait follows one
        end_thread of a leaving thread, modelled here as that call. */
    method Destroy()
      modifies this`threadCount, this`stopRequested
      ensures stopRequested && threadCount == 0
    {
      stopRequested := true;
      while threadCount > 0
        invariant stopRequested
        decreases threadCount
      {
        EndThread();
      }
    }

    /** One turn of peer_handler's loop once a header has been read, as
        TurnAfterHeader gives it: a declared length above the limit ends
        the connection with nothing more read or sent; a body that cannot
        be read ends it with nothing sent; otherwise the message goes to
        its type's handler, or the unknown type is answered, and the loop
        goes on exactly when the last send succeeded. */
    method ServeMessage(peer: Socket, header: array<uint8>) returns (proceed: bool, served: Option<Message>, ghost sent: seq<Delivery>)
      requires header.Length == HEADER_SIZE
      modifies peer`inbound, peer`recvOutcomes, peer`outbound, peer`sendOutcomes, header
      ensures var turn := TurnAfterHeader(handlers, old(header[..]), old(peer.inbound), old(peer.recvOutcomes), old(peer.sendOutcomes));
        && (turn.Oversized? ==> served.None? && peer.inbound == old(peer.inbound) && peer.recvOutcomes == old(peer.recvOutcomes))
        && (turn.ShortBody? ==> served.None? && peer.inbound == turn.inbound && peer.recvOutcomes == turn.recv)
        && (turn.Served? ==> served == Some(turn.message) && sent == turn.sent && peer.inbound == turn.inbound
                             && peer.recvOutcomes == turn.recv && peer.sendOutcomes == turn.send)
      ensures served.None? ==> !proceed && sent == [] && peer.outbound == old(peer.outbound) && peer.sendOutcomes == old(peer.sendOutcomes)
      ensures served.Some? ==> proceed == LastSucceeded(sent) && peer.outbound == old(peer.outbound) + Wire(sent)
    {
      var (messageType, length) := DecodeHeader(header[..]);
      if length > MAX_MESSAGE_LENGTH {
        return false, None, [];
      }
      var body := new uint8[length];
      ghost var stream := peer.inbound;
      var bodyRead, b := PeerRead(peer, body);
      if !bodyRead {
        assert peer.inbound == stream[|b|..];
        return false, None, [];
      }
      assert body[..] == stream[..length] && peer.inbound == stream[length..];
      var m := Message(messageType, body[..]);
      proceed, sent := SendAll(peer, header, Dispatch(handlers, m));
      served := Some(m);
    }

    /** peer_handler, without its exit action, as Serve gives it: reads
        messages one at a time and in order, and stops on a header or body
        that cannot be read, on a declared length above the limit, or after
        a message whose last send failed. The handled messages are the
        stream's first messages, each within the limit; the replies are
        theirs, in order; and the bytes on the wire are what each send
        delivered. */
    method ServePeer(peer: Socket, configured: bool) returns (ghost handled: seq<Message>, ghost log: seq<Delivery>, ghost stop: StopReason)
      modifies peer
      ensures configured ==>
        Serve(handlers, old(peer.inbound), old(peer.recvOutcomes), old(peer.sendOutcomes))
        == Session(handled, log, stop, peer.inbound, peer.recvOutcomes, peer.sendOutcomes)
      ensures !configured ==>
        stop == NotConfigured && handled == [] && log == [] && peer.inbound == old(peer.inbound)
        && peer.recvOutcomes == old(peer.recvOutcomes) && peer.sendOutcomes == old(peer.sendOutcomes)
      ensures Frames(handled) <= old(peer.inbound)
      ensures WithinLimit(handled)
      ensures Replies(log) == AllReplies(handlers, handled)
      ensures AllDelivered(log)
      ensures peer.outbound == old(peer.outbound) + Wire(log)
    {
      handled, log, stop := [], [], NotConfigured;
      ghost var stream, wireStart := peer.inbound, peer.outbound;
      ghost var recv, send := peer.recvOutcomes, peer.sendOutcomes;
      if !configured {
        return;
      }
      var header := new uint8[HEADER_SIZE];
      ghost var whole := Serve(handlers, stream, recv, send);
      assert whole == Resume(handled, log, whole) by {
        assert [] + whole.handled == whole.handled && [] + whole.log == whole.log;
      }
      while true
        invariant stream == Frames(handled) + peer.inbound
        invariant WithinLimit(handled)
        invariant Replies(log) == AllReplies(handlers, handled)
        invariant AllDelivered(log)
        invariant peer.outbound == wireStart + Wire(log)
        invariant whole == Resume(handled, log, Serve(handlers, peer.inbound, peer.recvOutcomes, peer.sendOutcomes))
        decreases |peer.inbound|
      {
        ghost var before := peer.inbound;
        var going, served, sent, why := ServeTurn(peer, header);
        if served.None? {
          PrefixOfSum(Frames(handled), before);
          assert handled + [] == handled && log + [] == log;
          stop := why;
          return;
        }
        ServeStep(handlers, handled, log, served.value, sent, stream, before, peer.inbound, wireStart, peer.outbound);
        ResumeResume(handled, log, [served.value], sent, Serve(handlers, peer.inbound, peer.recvOutcomes, peer.sendOutcomes));
        handled := handled + [served.value];
        log := log + sent;
        if !going {
          PrefixOfSum(Frames(handled), peer.inbound);
          stop := why;
          return;
        }
      }
    }

    /** One turn of peer_handler's loop: the header read, then the rest of
        the turn. What it does is Serve's first step, and it goes on
        exactly when Serve does. */
    method ServeTurn(peer: Socket, header: array<uint8>)
      returns (going: bool, served: Option<Message>, ghost sent: seq<Delivery>, ghost stop: StopReason)
      requires header.Length == HEADER_SIZE
      modifies peer`inbound, peer`recvOutcomes, peer`outbound, peer`sendOutcomes, header
      ensures var s := Serve(handlers, old(peer.inbound), old(peer.recvOutcomes), old(peer.sendOutcomes));
        var handled := if served.Some? then [served.value] else [];
        if going then served.Some? && s == Resume(handled, sent, Serve(handlers, peer.inbound, peer.recvOutcomes, peer.sendOutcomes))
        else s == Session(handled, sent, stop, peer.inbound, peer.recvOutcomes, peer.sendOutcomes)
      ensures served.Some? ==> old(peer.inbound) == Frame(served.value) + peer.inbound && |served.value.body| <= MAX_MESSAGE_LENGTH
      ensures served.Some? ==> Replies(sent) == Dispatch(handlers, served.value) && AllDelivered(sent)
      ensures served.None? ==> sent == [] && peer.outbound == old(peer.outbound)
      ensures served.Some? ==> peer.outbound == old(peer.outbound) + Wire(sent)
    {
      ghost var before := peer.inbound;
      var headerRead, read := PeerRead(peer, header);
      if !headerRead {
        assert peer.inbound == before[|read|..];
        return false, None, [], HeaderNotRead;
      }
      assert header[..] == read == before[..HEADER_SIZE];
      ghost var after := peer.inbound;
      assert after == before[HEADER_SIZE..];
      ghost var turn := TurnAfterHeader(handlers, header[..], peer.inbound, peer.recvOutcomes, peer.sendOutcomes);
      going, served, sent := ServeMessage(peer, header);
      stop := if served.Some? then SendFailed else if turn.Oversized? then LengthTooHigh else BodyNotRead;
    }

    /** peer_handler: ServePeer, then the exit action takes the thread off
        the count. */
    method PeerHandler(peer: Socket, configured: bool) returns (ghost handled: seq<Message>, ghost log: seq<Delivery>, ghost stop: StopReason)
      modifies peer, this`threadCount
      ensures threadCount == Wrap32(old(threadCount) - 1)
      ensures configured ==>
        Serve(handlers, old(peer.inbound), old(peer.recvOutcomes), old(peer.sendOutcomes))
        == Session(handled, log, stop, peer.inbound, peer.recvOutcomes, peer.sendOutcomes)
      ensures !configured ==> stop == NotConfigured && handled == [] && log == []
      ensures Frames(handled) <= old(peer.inbound)
      ensures Replies(log) == AllReplies(handlers, handled)
      ensures AllDelivered(log)
      ensures peer.outbound == old(peer.outbound) + Wire(log)
    {
      ghost var expected := Serve(handlers, peer.inbound, peer.recvOutcomes, peer.sendOutcomes);
      handled, log, stop := ServePeer(peer, configured);
      EndThread();
    }
  }

  lemma PrefixOfSum(a: seq<uint8>, b: seq<uint8>)
    ensures a <= a + b
  {
    assert (a + b)[..|a|] == a;
  }

  /** One more handled message: its frame follows the earlier ones'. */
  lemma HandledStep(handled: seq<Message>, m: Message, before: seq<uint8>, rest: seq<uint8>, stream: seq<uint8>)
    requires stream == Frames(handled) + before && before == Frame(m) + rest
    ensures stream == Frames(handled + [m]) + rest
  {
    assert (handled + [m])[..|handled|] == handled;
    AppendThree(Frames(handled), Frame(m), rest);
  }

  /** One more message served: the invariants of peer_handler's loop
      carry over to the longer logs. */
  lemma ServeStep(handlers: map<uint16, Handler>, handled: seq<Message>, log: seq<Delivery>, m: Message, sent: seq<Delivery>,
                  stream: seq<uint8>, before: seq<uint8>, rest: seq<uint8>, wireStart: seq<uint8>, wire: seq<uint8>)
    requires stream == Frames(handled) + before && before == Frame(m) + rest
    requires Replies(log) == AllReplies(handlers, handled) && Replies(sent) == Dispatch(handlers, m)
    requires AllDelivered(log) && AllDelivered(sent)
    requires wire == wireStart + Wire(log) + Wire(sent)
    requires WithinLimit(handled) && |m.body| <= MAX_MESSAGE_LENGTH
    ensures stream == Frames(handled + [m]) + rest
    ensures WithinLimit(handled + [m])
    ensures Replies(log + sent) == AllReplies(handlers, handled + [m])
    ensures AllDelivered(log + sent)
    ensures wire == wireStart + Wire(log + sent)
  {
    HandledStep(handled, m, before, rest, stream);
    assert (handled + [m])[..|handled|] == handled;
    AllRepliesSnoc(handlers, handled, m);
    LogAppend(log, sent);
    AppendThree(wireStart, Wire(log), Wire(sent));
  }

  /** The replies of one more message follow the earlier ones'. */
  lemma AllRepliesSnoc(handlers: map<uint16, Handler>, handled: seq<Message>, m: Message)
    ensures AllReplies(handlers, handled + [m]) == AllReplies(handlers, handled) + Dispatch(handlers, m)
  {
    assert (handled + [m])[..|handled|] == handled;
  }
}
