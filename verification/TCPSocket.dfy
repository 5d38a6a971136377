// Messages framed on a byte stream, and the client's receive: it picks the first message with a relevant
// code and keeps the ones it reads past in a buffer for later calls.

module TCPSocket {
  import opened Bytes

  datatype MessageBaseReceived = MessageBaseReceived(code: byte, data: seq<byte>)

  /** MessageBaseToSend::serialize: the code and the size of what follows. */
  method SerializeHeader(code: byte, previousSize: nat) returns (result: seq<byte>)
    requires previousSize < 0x1_0000_0000
    ensures result == Header(code, previousSize)
  {
    result := [code];
    var left := previousSize;
    for i := 0 to 4
      invariant result + Encode(left, 4 - i) == Header(code, previousSize)
    {
      assert Encode(left, 4 - i) == [left % 256] + Encode(left / 256, 3 - i);
      result := result + [left % 256];
      left := left / 256;
    }
  }

  function Header(code: byte, size: nat): (s: seq<byte>)
    ensures |s| == 5
  {
    [code] + Encode(size, 4)
  }

  function Frame(m: MessageBaseReceived): (s: seq<byte>)
    ensures |s| == 5 + |m.data|
  {
    Header(m.code, |m.data|) + m.data
  }

  function Stream(ms: seq<MessageBaseReceived>): seq<byte> {
    if ms == [] then [] else Frame(ms[0]) + Stream(ms[1..])
  }

  predicate Sendable(ms: seq<MessageBaseReceived>) {
    forall i :: 0 <= i < |ms| ==> |ms[i].data| < 0x1_0000_0000
  }

  // ----- reading one frame; a recv call returns at most what has arrived

  datatype ReadResult = Read(message: MessageBaseReceived, rest: seq<byte>) | Short(error: string)

  function ReadFrame(wire: seq<byte>): (r: ReadResult)
    ensures r.Read? ==> |r.rest| < |wire|
  {
    if wire == [] then Short("Failed to read response code")
    else if |wire| < 5 then Short("Failed to read response size")
    else
      var size := Decode(wire[1..5]);
      if |wire| < 5 + size then Short("Failed to read response data")
      else Read(MessageBaseReceived(wire[0], wire[5..5 + size]), wire[5 + size..])
  }

  lemma ReadFramed(m: MessageBaseReceived, rest: seq<byte>)
    requires |m.data| < 0x1_0000_0000
    ensures ReadFrame(Frame(m) + rest) == Read(m, rest)
  {
    var wire := Frame(m) + rest;
    DecodeEncode(|m.data|, 4);
    assert wire[1..5] == Encode(|m.data|, 4);
  }

  /** A message begins with its code and the size of its data, least significant byte first. */
  lemma FrameLayout(m: MessageBaseReceived)
    requires |m.data| < 0x1_0000_0000
    ensures Frame(m) == [m.code, |m.data| % 256, |m.data| / 256 % 256, |m.data| / 65536 % 256, |m.data| / 16777216]
                        + m.data
  {
    EncodeShort(|m.data|);
  }

  /** While less than a whole message has arrived, nothing is read. */
  lemma PrefixIsShort(m: MessageBaseReceived, n: nat)
    requires |m.data| < 0x1_0000_0000 && n < |Frame(m)|
    ensures ReadFrame(Frame(m)[..n]).Short?
  {
    if n >= 5 {
      assert Frame(m)[..n][1..5] == Encode(|m.data|, 4);
      DecodeEncode(|m.data|, 4);
    }
  }

  // ----- what receive does

  datatype Outcome =
    | Delivered(message: MessageBaseReceived)
    | Waiting                   // no relevant message so far: the loop goes on until more bytes arrive
    | Failed(error: string)     // a runtime_error

  datatype Received = Received(outcome: Outcome, buffer: seq<MessageBaseReceived>, wire: seq<byte>)

  function FirstMatch(ms: seq<MessageBaseReceived>, isRelevant: byte -> bool): (k: nat)
    ensures k <= |ms|
    ensures k < |ms| ==> isRelevant(ms[k].code)
    ensures forall i :: 0 <= i < k ==> !isRelevant(ms[i].code)
  {
    if ms == [] || isRelevant(ms[0].code) then 0 else 1 + FirstMatch(ms[1..], isRelevant)
  }

  /** A connection closed by the other side is readable without end: the next recv comes back empty. */
  function AfterReceive(buffer: seq<MessageBaseReceived>, wire: seq<byte>, closed: bool, isRelevant: byte -> bool): Received
    decreases |wire|
  {
    var k := FirstMatch(buffer, isRelevant);
    if k < |buffer| then Received(Delivered(buffer[k]), buffer[..k] + buffer[k + 1..], wire)
    else if wire == [] && !closed then Received(Waiting, buffer, [])
    else match ReadFrame(wire)
         case Short(error) => Received(Failed(error), buffer, [])
         case Read(message, rest) =>
           if isRelevant(message.code) then Received(Delivered(message), buffer, rest)
           else AfterReceive(buffer + [message], rest, closed, isRelevant)
  }

  class TCPSocket {
    var messages: seq<MessageBaseReceived>
    var wire: seq<byte>
    var closed: bool

    constructor ()
      ensures messages == [] && wire == [] && !closed
    {
      messages, wire, closed := [], [], false;
    }

    predicate IsDataToReceive()
      reads this
    {
      wire != [] || closed
    }

    method Recv(size: nat) returns (bytes: seq<byte>)
      modifies `wire
      ensures bytes == old(wire)[..Min(size, |old(wire)|)] && wire == old(wire)[Min(size, |old(wire)|)..]
    {
      var n := Min(size, |wire|);
      bytes, wire := wire[..n], wire[n..];
    }

    method FindRelevant(isRelevant: byte -> bool) returns (k: nat)
      ensures k == FirstMatch(messages, isRelevant)
    {
      k := 0;
      while k < |messages| && !isRelevant(messages[k].code)
        invariant k <= |messages|
        invariant forall i :: 0 <= i < k ==> !isRelevant(messages[i].code)
      {
        k := k + 1;
      }
      MatchIsUnique(messages, isRelevant, k);
    }

    /** The code, the size and the data of the next message. */
    method ReadMessage() returns (r: ReadResult)
      requires IsDataToReceive()
      modifies `wire
      ensures r == ReadFrame(old(wire))
      ensures wire == if r.Read? then r.rest else []
    {
      hide Encode, Decode;
      var code := Recv(1);
      if |code| != 1 {
        return Short("Failed to read response code");
      }
      var size := Recv(4);
      if |size| != 4 {
        return Short("Failed to read response size");
      }
      SizeBytes(old(wire));
      var data := Recv(Decode(size));
      if |data| != Decode(size) {
        return Short("Failed to read response data");
      }
      r := Read(MessageBaseReceived(code[0], data), wire);
    }

    method Receive(isRelevant: byte -> bool) returns (outcome: Outcome)
      modifies `messages, `wire
      ensures Received(outcome, messages, wire) == AfterReceive(old(messages), old(wire), closed, isRelevant)
    {
      hide ReadFrame, FirstMatch;
      while true
        invariant AfterReceive(messages, wire, closed, isRelevant)
               == AfterReceive(old(messages), old(wire), closed, isRelevant)
        decreases |wire|
      {
        var k := FindRelevant(isRelevant);
        if k < |messages| {
          outcome := Delivered(messages[k]);
          messages := messages[..k] + messages[k + 1..];
          return;
        }
        if !IsDataToReceive() {
          return Waiting;
        }
        var next := ReadMessage();
        match next {
          case Short(error) =>
            return Failed(error);
          case Read(message, rest) =>
            if isRelevant(message.code) {
              return Delivered(message);
            }
            messages := messages + [message];
        }
      }
    }
  }

  lemma SizeBytes(wire: seq<byte>)
    requires |wire| >= 5
    ensures wire[1..][..4] == wire[1..5] && wire[1..][4..] == wire[5..]
  {
  }

  lemma MatchIsUnique(ms: seq<MessageBaseReceived>, isRelevant: byte -> bool, k: nat)
    requires k <= |ms| && (k < |ms| ==> isRelevant(ms[k].code))
    requires forall i :: 0 <= i < k ==> !isRelevant(ms[i].code)
    ensures k == FirstMatch(ms, isRelevant)
  {
  }

  // ----- buffer and stream together are one list

  lemma NothingInFront(buffer: seq<MessageBaseReceived>, rest: seq<MessageBaseReceived>, isRelevant: byte -> bool)
    requires FirstMatch(buffer, isRelevant) == |buffer|
    ensures FirstMatch(buffer + rest, isRelevant) == |buffer| + FirstMatch(rest, isRelevant)
  {
    MatchIsUnique(buffer + rest, isRelevant, |buffer| + FirstMatch(rest, isRelevant));
  }

  /** The messages still on the wire when message k of buffer and wire together is taken, or none is. */
  function Unread(buffer: seq<MessageBaseReceived>, arriving: seq<MessageBaseReceived>, k: nat): seq<MessageBaseReceived>
    requires k <= |buffer| + |arriving|
  {
    if k < |buffer| then arriving
    else if k < |buffer| + |arriving| then arriving[k + 1 - |buffer|..]
    else []
  }

  /** Message k of the list is delivered and the others are left in order, or all are when k is the length. */
  ghost predicate Takes(all: seq<MessageBaseReceived>, k: nat, closed: bool, r: Received, unread: seq<MessageBaseReceived>)
    requires k <= |all|
  {
    && r.wire == Stream(unread)
    && r.outcome == (if k < |all| then Delivered(all[k])
                       else if closed then Failed("Failed to read response code") else Waiting)
    && r.buffer + unread == (if k < |all| then all[..k] + all[k + 1..] else all)
  }

  /** The outcome of receive, seen on the list of the buffered and the arriving messages. */
  ghost predicate RemovesFirstMatch(buffer: seq<MessageBaseReceived>, arriving: seq<MessageBaseReceived>,
                                    closed: bool, isRelevant: byte -> bool, r: Received)
  {
    var k := FirstMatch(buffer + arriving, isRelevant);
    Takes(buffer + arriving, k, closed, r, Unread(buffer, arriving, k))
  }

  lemma RemovedInFront(buffer: seq<MessageBaseReceived>, arriving: seq<MessageBaseReceived>, k: nat)
    requires k < |buffer|
    ensures buffer[..k] + buffer[k + 1..] + arriving == (buffer + arriving)[..k] + (buffer + arriving)[k + 1..]
    ensures (buffer + arriving)[k] == buffer[k]
  {
  }

  lemma FoundInBuffer(buffer: seq<MessageBaseReceived>, arriving: seq<MessageBaseReceived>,
                      closed: bool, isRelevant: byte -> bool)
    requires FirstMatch(buffer, isRelevant) < |buffer|
    ensures RemovesFirstMatch(buffer, arriving, closed, isRelevant,
                              AfterReceive(buffer, Stream(arriving), closed, isRelevant))
  {
    hide Stream, FirstMatch, ReadFrame;
    var k := FirstMatch(buffer, isRelevant);
    MatchIsUnique(buffer + arriving, isRelevant, k);
    RemovedInFront(buffer, arriving, k);
  }

  lemma NothingFound(buffer: seq<MessageBaseReceived>, closed: bool, isRelevant: byte -> bool)
    requires FirstMatch(buffer, isRelevant) == |buffer|
    ensures RemovesFirstMatch(buffer, [], closed, isRelevant, AfterReceive(buffer, Stream([]), closed, isRelevant))
  {
    assert buffer + [] == buffer;
  }

  lemma FoundFirst(buffer: seq<MessageBaseReceived>, arriving: seq<MessageBaseReceived>,
                   closed: bool, isRelevant: byte -> bool)
    requires FirstMatch(buffer, isRelevant) == |buffer| && arriving != []
    requires isRelevant(arriving[0].code) && |arriving[0].data| < 0x1_0000_0000
    ensures RemovesFirstMatch(buffer, arriving, closed, isRelevant,
                              AfterReceive(buffer, Stream(arriving), closed, isRelevant))
  {
    var all := buffer + arriving;
    ReadFramed(arriving[0], Stream(arriving[1..]));
    hide ReadFrame, Frame;
    MatchIsUnique(all, isRelevant, |buffer|);
    assert buffer + arriving[1..] == all[..|buffer|] + all[|buffer| + 1..];
  }

  lemma ReadPast(buffer: seq<MessageBaseReceived>, arriving: seq<MessageBaseReceived>,
                 closed: bool, isRelevant: byte -> bool)
    requires FirstMatch(buffer, isRelevant) == |buffer| && arriving != []
    requires !isRelevant(arriving[0].code) && |arriving[0].data| < 0x1_0000_0000
    ensures AfterReceive(buffer, Stream(arriving), closed, isRelevant)
      == AfterReceive(buffer + [arriving[0]], Stream(arriving[1..]), closed, isRelevant)
  {
    ReadFramed(arriving[0], Stream(arriving[1..]));
    hide ReadFrame, Frame;
    assert Stream(arriving) == Frame(arriving[0]) + Stream(arriving[1..]);
  }

  lemma UnreadLater(buffer: seq<MessageBaseReceived>, arriving: seq<MessageBaseReceived>, k: nat)
    requires arriving != [] && |buffer| < k <= |buffer| + |arriving|
    ensures Unread(buffer + [arriving[0]], arriving[1..], k) == Unread(buffer, arriving, k)
  {
  }

  lemma BeyondTheHead(buffer: seq<MessageBaseReceived>, arriving: seq<MessageBaseReceived>, isRelevant: byte -> bool)
    requires FirstMatch(buffer, isRelevant) == |buffer| && arriving != [] && !isRelevant(arriving[0].code)
    ensures FirstMatch(buffer + arriving, isRelevant) > |buffer|
  {
    NothingInFront(buffer, arriving, isRelevant);
  }

  lemma SameListSplitLater(buffer: seq<MessageBaseReceived>, arriving: seq<MessageBaseReceived>,
                           closed: bool, isRelevant: byte -> bool, r: Received)
    requires FirstMatch(buffer, isRelevant) == |buffer| && arriving != [] && !isRelevant(arriving[0].code)
    requires RemovesFirstMatch(buffer + [arriving[0]], arriving[1..], closed, isRelevant, r)
    ensures RemovesFirstMatch(buffer, arriving, closed, isRelevant, r)
  {
    hide FirstMatch, Unread, Takes;
    assert buffer + [arriving[0]] + arriving[1..] == buffer + arriving;
    BeyondTheHead(buffer, arriving, isRelevant);
    UnreadLater(buffer, arriving, FirstMatch(buffer + arriving, isRelevant));
  }

  /**
   * With whole frames on the wire: the first relevant message of buffer and wire together is delivered and
   * all others stay in order, or there is none and all of them are in the buffer: then the call waits for
   * more, or fails if the other side has closed the connection.
   */
  lemma {:induction false} FirstMatchIsRemoved(buffer: seq<MessageBaseReceived>, arriving: seq<MessageBaseReceived>,
                                               closed: bool, isRelevant: byte -> bool)
    requires Sendable(arriving)
    ensures RemovesFirstMatch(buffer, arriving, closed, isRelevant,
                              AfterReceive(buffer, Stream(arriving), closed, isRelevant))
    decreases |arriving|
  {
    hide RemovesFirstMatch, AfterReceive, Stream, FirstMatch;
    var k := FirstMatch(buffer, isRelevant);
    if k < |buffer| {
      FoundInBuffer(buffer, arriving, closed, isRelevant);
    } else if arriving == [] {
      NothingFound(buffer, closed, isRelevant);
    } else if isRelevant(arriving[0].code) {
      FoundFirst(buffer, arriving, closed, isRelevant);
    } else {
      ReadPast(buffer, arriving, closed, isRelevant);
      FirstMatchIsRemoved(buffer + [arriving[0]], arriving[1..], closed, isRelevant);
      SameListSplitLater(buffer, arriving, closed, isRelevant, AfterReceive(buffer, Stream(arriving), closed, isRelevant));
    }
  }
}
