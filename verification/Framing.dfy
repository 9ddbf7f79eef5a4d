/** Cutting a byte stream into messages, read by read. */
module Framing {
  import opened ExchangeTypes
  import opened Wire

  function Zeros(n: nat): Bytes {
    seq(n, _ => 0)
  }

  /** The loop stops here: not even a header, or not the whole message yet. */
  predicate Waits(buf: Bytes) {
    |buf| < HEADER_SIZE || |buf| < U16(buf, 0)
  }

  /** The envelope for the message at the front of the buffer; an oversized message is dropped. */
  function Emitted(trader: TraderId, buf: Bytes): (out: seq<RawMessage>)
    requires !Waits(buf)
    ensures forall raw | raw in out :: WellSized(raw)
  {
    var n := U16(buf, 0);
    if n > MAX_RAW_MSG_SIZE then [] else [RawMessage(trader, n, buf[..n] + Zeros(MAX_RAW_MSG_SIZE - n))]
  }

  /** Either the loop ends with some messages and a remainder, or it pushes some messages and then meets
      a zero-length header, for which it pushes an empty envelope in every round from then on. */
  datatype Framed = Done(msgs: seq<RawMessage>, rest: Bytes) | Spins(msgs: seq<RawMessage>) {
    function After(msgs0: seq<RawMessage>): Framed {
      this.(msgs := msgs0 + msgs)
    }
  }

  function Frame(trader: TraderId, buf: Bytes): Framed
    decreases |buf|
  {
    if Waits(buf) then Done([], buf)
    else if U16(buf, 0) == 0 then Spins([])
    else Frame(trader, buf[U16(buf, 0)..]).After(Emitted(trader, buf))
  }

  // ---- The loop ends exactly when no zero-length header is met ----

  /** The buffer after n rounds of the loop. */
  function Rounds(buf: Bytes, n: nat): Bytes
    decreases n
  {
    if n == 0 || Waits(buf) then buf else Rounds(buf[U16(buf, 0)..], n - 1)
  }

  ghost predicate Terminates(buf: Bytes) {
    exists n: nat :: Waits(Rounds(buf, n))
  }

  /** No round of the loop finds a header announcing length 0. */
  ghost predicate NeverZero(buf: Bytes) {
    forall n: nat :: !Waits(Rounds(buf, n)) ==> U16(Rounds(buf, n), 0) != 0
  }

  lemma {:induction false} SpinsForever(trader: TraderId, buf: Bytes, n: nat)
    requires Frame(trader, buf).Spins?
    ensures !Waits(Rounds(buf, n))
    decreases n
  {
    hide U16;
    if n > 0 {
      if U16(buf, 0) == 0 {
        assert buf[0..] == buf;
      }
      SpinsForever(trader, buf[U16(buf, 0)..], n - 1);
    }
  }

  lemma {:induction false} DoneTerminates(trader: TraderId, buf: Bytes) returns (n: nat)
    requires Frame(trader, buf).Done?
    ensures Waits(Rounds(buf, n))
    decreases |buf|
  {
    hide U16;
    if Waits(buf) {
      return 0;
    }
    var k := DoneTerminates(trader, buf[U16(buf, 0)..]);
    n := k + 1;
  }

  lemma {:induction false} DoneMeetsNoZero(trader: TraderId, buf: Bytes, n: nat)
    requires Frame(trader, buf).Done?
    ensures !Waits(Rounds(buf, n)) ==> U16(Rounds(buf, n), 0) != 0
    decreases n
  {
    hide U16;
    if n > 0 && !Waits(buf) {
      DoneMeetsNoZero(trader, buf[U16(buf, 0)..], n - 1);
    }
  }

  lemma {:induction false} SpinsMeetsZero(trader: TraderId, buf: Bytes) returns (n: nat)
    requires Frame(trader, buf).Spins?
    ensures !Waits(Rounds(buf, n)) && U16(Rounds(buf, n), 0) == 0
    decreases |buf|
  {
    hide U16;
    if U16(buf, 0) == 0 {
      return 0;
    }
    var k := SpinsMeetsZero(trader, buf[U16(buf, 0)..]);
    n := k + 1;
  }

  lemma DoneIffNeverZero(trader: TraderId, buf: Bytes)
    ensures Frame(trader, buf).Done? <==> NeverZero(buf)
  {
    if Frame(trader, buf).Done? {
      forall n: nat
        ensures !Waits(Rounds(buf, n)) ==> U16(Rounds(buf, n), 0) != 0
      {
        DoneMeetsNoZero(trader, buf, n);
      }
    } else {
      var n := SpinsMeetsZero(trader, buf);
    }
  }

  /** The framing loop terminates if and only if no header it meets announces length 0. */
  lemma TerminatesIff(buf: Bytes)
    ensures Terminates(buf) <==> NeverZero(buf)
  {
    DoneIffNeverZero(0, buf);
    if Frame(0, buf).Done? {
      var n := DoneTerminates(0, buf);
    } else {
      forall n: nat
        ensures !Waits(Rounds(buf, n))
      {
        SpinsForever(0, buf, n);
      }
    }
  }

  // ---- What is pushed, round by round ----

  /** The envelopes pushed in the first n rounds. */
  function Pushed(trader: TraderId, buf: Bytes, n: nat): seq<RawMessage>
    decreases n
  {
    if n == 0 || Waits(buf) then [] else Emitted(trader, buf) + Pushed(trader, buf[U16(buf, 0)..], n - 1)
  }

  /** The envelope of a zero-length message. */
  function EmptyEnvelope(trader: TraderId): RawMessage {
    RawMessage(trader, 0, Zeros(MAX_RAW_MSG_SIZE))
  }

  function Flood(trader: TraderId, k: nat): seq<RawMessage> {
    seq(k, _ => EmptyEnvelope(trader))
  }

  /** All that framing can have pushed, with k rounds of a flood if there is one. */
  function Upto(trader: TraderId, f: Framed, k: nat): seq<RawMessage> {
    f.msgs + (if f.Spins? then Flood(trader, k) else [])
  }

  /** Some round of the loop has pushed exactly `out`. */
  ghost predicate Pushes(trader: TraderId, buf: Bytes, out: seq<RawMessage>) {
    exists n: nat :: Pushed(trader, buf, n) == out
  }

  /** `out` is a start of the messages framed and a flood of some length. */
  ghost predicate Starts(trader: TraderId, f: Framed, out: seq<RawMessage>) {
    exists k: nat :: out <= Upto(trader, f, k)
  }

  lemma ZeroRound(trader: TraderId, buf: Bytes)
    requires !Waits(buf) && U16(buf, 0) == 0
    ensures Emitted(trader, buf) == [EmptyEnvelope(trader)] && buf[U16(buf, 0)..] == buf
  {
    hide U16;
    assert buf[..0] + Zeros(MAX_RAW_MSG_SIZE) == Zeros(MAX_RAW_MSG_SIZE);
  }

  lemma {:induction false} ZeroFloods(trader: TraderId, buf: Bytes, n: nat)
    requires !Waits(buf) && U16(buf, 0) == 0
    ensures Pushed(trader, buf, n) == Flood(trader, n) && Rounds(buf, n) == buf
  {
    hide U16, Waits;
    if n > 0 {
      ZeroRound(trader, buf);
      ZeroFloods(trader, buf, n - 1);
      assert [EmptyEnvelope(trader)] + Flood(trader, n - 1) == Flood(trader, n);
    }
  }

  lemma UptoAfter(trader: TraderId, f: Framed, msgs: seq<RawMessage>, k: nat)
    ensures Upto(trader, f.After(msgs), k) == msgs + Upto(trader, f, k)
  {
  }

  /** Whatever has been pushed at some round is the start of the messages framed, flood included. */
  lemma {:induction false} PushedFits(trader: TraderId, buf: Bytes, n: nat)
    ensures Pushed(trader, buf, n) <= Upto(trader, Frame(trader, buf), n)
    decreases n
  {
    hide U16, Upto, Emitted;
    if n > 0 && !Waits(buf) {
      if U16(buf, 0) == 0 {
        ZeroFloods(trader, buf, n);
        UptoSpins(trader, [], n);
      } else {
        var next := buf[U16(buf, 0)..];
        PushedFits(trader, next, n - 1);
        UptoMore(trader, Frame(trader, next), n - 1);
        UptoAfter(trader, Frame(trader, next), Emitted(trader, buf), n);
      }
    }
  }

  lemma UptoSpins(trader: TraderId, msgs: seq<RawMessage>, k: nat)
    ensures Upto(trader, Spins(msgs), k) == msgs + Flood(trader, k)
  {
  }

  lemma UptoMore(trader: TraderId, f: Framed, k: nat)
    ensures Upto(trader, f, k) <= Upto(trader, f, k + 1)
  {
  }

  /** Conversely, every such start is what has been pushed at some round. */
  lemma {:induction false} FitsPushed(trader: TraderId, buf: Bytes, out: seq<RawMessage>, k: nat) returns (n: nat)
    requires out <= Upto(trader, Frame(trader, buf), k)
    ensures Pushed(trader, buf, n) == out
    decreases |buf|
  {
    hide U16;
    if out == [] {
      return 0;
    }
    if U16(buf, 0) == 0 {
      n := |out|;
      ZeroFloods(trader, buf, n);
      return;
    }
    var next, e := buf[U16(buf, 0)..], Emitted(trader, buf);
    UptoAfter(trader, Frame(trader, next), e, k);
    assert out[..|e|] == e;
    var m := FitsPushed(trader, next, out[|e|..], k);
    n := m + 1;
  }

  /** What framing can have pushed at some moment: exactly the starts of its messages and, once it has
      met a zero-length header, all of them and any number of empty envelopes. */
  lemma PushedIff(trader: TraderId, buf: Bytes, out: seq<RawMessage>)
    ensures Pushes(trader, buf, out) <==> Starts(trader, Frame(trader, buf), out)
  {
    hide Frame, Upto;
    if n: nat :| Pushed(trader, buf, n) == out {
      PushedFits(trader, buf, n);
    }
    if k: nat :| out <= Upto(trader, Frame(trader, buf), k) {
      var n := FitsPushed(trader, buf, out, k);
    }
  }

  /** Three bytes are enough: a header of length 0, whatever its type, makes every round push an empty
      envelope, which the matching thread skips, and consume nothing. */
  lemma ZeroHeaderFloods(trader: TraderId, kind: u8, more: Bytes, n: nat)
    ensures var buf := [0, 0, kind] + more;
            && Frame(trader, buf) == Spins([]) && !Terminates(buf)
            && Pushed(trader, buf, n) == Flood(trader, n) && Rounds(buf, n) == buf
    ensures DecodeAll(Flood(trader, n)) == []
  {
    var buf := [0, 0, kind] + more;
    assert buf[0..2] == [0, 0];
    assert [0, 0][1..] == [0] && [0][1..] == [] && UnLe([]) == 0;
    assert UnLe([0]) == 0;
    forall m: nat
      ensures !Waits(Rounds(buf, m))
    {
      SpinsForever(trader, buf, m);
    }
    ZeroFloods(trader, buf, n);
    FloodDecodes(trader, n);
  }

  lemma {:induction false} FloodDecodes(trader: TraderId, n: nat)
    ensures DecodeAll(Flood(trader, n)) == []
  {
    if n > 0 {
      assert Flood(trader, n)[1..] == Flood(trader, n - 1);
      FloodDecodes(trader, n - 1);
    }
  }

  /** The front of a buffer, byte by byte: fewer than 3 bytes, or fewer than its first two bytes announce,
      wait; of more than 128 announced nothing is pushed; any other message is pushed, padded with
      zeros to 128 bytes. What is announced is consumed. */
  lemma FrontBytes(trader: TraderId, buf: Bytes)
    ensures |buf| < 3 || |buf| < Two(buf, 0) ==>
              Frame(trader, buf) == Done([], buf) && Pushed(trader, buf, 1) == []
    ensures |buf| >= 3 && |buf| >= Two(buf, 0) ==>
              var n := Two(buf, 0); var out := Pushed(trader, buf, 1);
              && Rounds(buf, 1) == buf[n..]
              && (n > 0 ==> Frame(trader, buf) == Frame(trader, buf[n..]).After(out))
              && (n > 128 ==> out == [])
              && (n <= 128 ==>
                    && |out| == 1 && out[0].traderId == trader && out[0].length == n && |out[0].data| == 128
                    && out[0].data[..n] == buf[..n] && forall i :: n <= i < 128 ==> out[0].data[i] == 0)
  {
    hide U16;
    if |buf| >= 2 {
      U16Bytes(buf, 0);
    }
    if !Waits(buf) {
      var n := U16(buf, 0);
      assert Pushed(trader, buf[n..], 0) == [] && Rounds(buf[n..], 0) == buf[n..];
      assert Emitted(trader, buf) + [] == Emitted(trader, buf);
      if n <= 128 {
        assert (buf[..n] + Zeros(128 - n))[..n] == buf[..n];
      }
    }
  }

  // ---- Chunk independence ----

  lemma SameHeader(a: Bytes, b: Bytes)
    requires |a| >= HEADER_SIZE
    ensures U16(a + b, 0) == U16(a, 0)
  {
    assert (a + b)[0..2] == a[0..2];
  }

  /** Framing what arrived, then what arrives later behind the remainder, is framing it all. */
  lemma {:induction false} FrameConcat(trader: TraderId, a: Bytes, b: Bytes)
    ensures Frame(trader, a + b)
         == match Frame(trader, a)
            case Spins(msgs) => Spins(msgs)
            case Done(msgs, rest) => Frame(trader, rest + b).After(msgs)
    decreases |a|
  {
    hide U16;
    if Waits(a) {
      AfterNothing(Frame(trader, a + b));
    } else {
      SameHeader(a, b);
      var n := U16(a, 0);
      if n > 0 {
        FrameConcat(trader, a[n..], b);
        assert (a + b)[n..] == a[n..] + b;
        assert (a + b)[..n] == a[..n];
        if Frame(trader, a[n..]).Done? {
          var f := Frame(trader, a[n..]);
          AfterTwice(Frame(trader, f.rest + b), Emitted(trader, a), f.msgs);
        }
      }
    }
  }

  lemma AfterNothing(f: Framed)
    ensures f.After([]) == f
  {
    assert [] + f.msgs == f.msgs;
  }

  lemma AfterTwice(f: Framed, a: seq<RawMessage>, b: seq<RawMessage>)
    ensures f.After(b).After(a) == f.After(a + b)
  {
    assert a + (b + f.msgs) == (a + b) + f.msgs;
  }

  function Joined(chunks: seq<Bytes>): Bytes {
    if chunks == [] then [] else chunks[0] + Joined(chunks[1..])
  }

  /** What a session produces over a sequence of receive calls, framing after each. */
  function Feed(trader: TraderId, buf: Bytes, chunks: seq<Bytes>): Framed
    decreases |chunks|
  {
    if chunks == [] then Frame(trader, buf)
    else
      match Frame(trader, buf + chunks[0])
      case Spins(msgs) => Spins(msgs)
      case Done(msgs, rest) => Feed(trader, rest, chunks[1..]).After(msgs)
  }

  /** However the stream is split, the messages pushed and the remainder are those of the whole stream,
      up to and including a header on which framing spins. */
  lemma {:induction false} ChunkIndependence(trader: TraderId, buf: Bytes, chunks: seq<Bytes>)
    ensures Feed(trader, buf, chunks) == Frame(trader, buf + Joined(chunks))
    decreases |chunks|
  {
    if chunks == [] {
      assert buf + [] == buf;
    } else {
      var a := buf + chunks[0];
      assert buf + Joined(chunks) == a + Joined(chunks[1..]);
      FrameConcat(trader, a, Joined(chunks[1..]));
      if Frame(trader, a).Done? {
        ChunkIndependence(trader, Frame(trader, a).rest, chunks[1..]);
      }
    }
  }

  /** A session can have pushed `out` at some moment of a sequence of receive calls: in some round after
      the next call or, if framing ended there, later. */
  ghost predicate CanPush(trader: TraderId, buf: Bytes, chunks: seq<Bytes>, out: seq<RawMessage>)
    decreases |chunks|
  {
    if chunks == [] then Pushes(trader, buf, out)
    else
      var a := buf + chunks[0];
      || Pushes(trader, a, out)
      || match Frame(trader, a)
         case Spins(_) => false
         case Done(msgs, rest) => msgs <= out && CanPush(trader, rest, chunks[1..], out[|msgs|..])
  }

  /** The same about what can have been pushed at any moment, a flood of empty envelopes included: it
      depends on the stream and not on the split. */
  lemma {:induction false} HistoryIndependence(trader: TraderId, buf: Bytes, chunks: seq<Bytes>, out: seq<RawMessage>)
    ensures CanPush(trader, buf, chunks, out) <==> Pushes(trader, buf + Joined(chunks), out)
    decreases |chunks|
  {
    hide Frame, Pushes, Starts;
    if chunks == [] {
      assert buf + [] == buf;
    } else {
      var a, b := buf + chunks[0], Joined(chunks[1..]);
      assert buf + Joined(chunks) == a + b;
      FrameConcat(trader, a, b);
      PushedIff(trader, a, out);
      PushedIff(trader, a + b, out);
      match Frame(trader, a)
      case Spins(_) =>
        assert Frame(trader, a + b) == Frame(trader, a);
      case Done(msgs, rest) =>
        if msgs <= out {
          HistoryIndependence(trader, rest, chunks[1..], out[|msgs|..]);
          PushedIff(trader, rest + b, out[|msgs|..]);
        }
        ContinuedIff(trader, Done(msgs, rest), Frame(trader, rest + b), out);
    }
  }

  /** What can have been pushed in two stretches: part of the first, or all of it and part of the second. */
  lemma ContinuedIff(trader: TraderId, f: Framed, g: Framed, out: seq<RawMessage>)
    requires f.Done?
    ensures Starts(trader, g.After(f.msgs), out)
       <==> Starts(trader, f, out) || (f.msgs <= out && Starts(trader, g, out[|f.msgs|..]))
  {
    var m := |f.msgs|;
    forall k: nat
      ensures out <= Upto(trader, g.After(f.msgs), k)
         <==> out <= f.msgs || (f.msgs <= out && out[m..] <= Upto(trader, g, k))
    {
      UptoAfter(trader, g, f.msgs, k);
      SplitPrefix(out, f.msgs, Upto(trader, g, k));
    }
    assert forall k: nat :: Upto(trader, f, k) == f.msgs;
    assert out <= f.msgs ==> out <= Upto(trader, f, 0) && out <= Upto(trader, g.After(f.msgs), 0);
  }

  lemma SplitPrefix(out: seq<RawMessage>, a: seq<RawMessage>, b: seq<RawMessage>)
    ensures out <= a + b <==> out <= a || (a <= out && out[|a|..] <= b)
  {
    if out <= a + b {
      if |out| <= |a| {
        assert out == (a + b)[..|out|] == a[..|out|];
      } else {
        assert a == (a + b)[..|a|] == out[..|a|];
        assert out[|a|..] == (a + b)[|a|..|out|] == b[..|out| - |a|];
      }
    }
  }

  // ---- The session object ----

  class ClientSession {
    const fd: int
    const traderId: TraderId
    var recvBuffer: Bytes

    constructor (fd: int, traderId: TraderId)
      ensures this.fd == fd && this.traderId == traderId && recvBuffer == []
    {
      this.fd, this.traderId, recvBuffer := fd, traderId, [];
    }

    /** Appends everything the socket has. */
    method Receive(received: seq<Bytes>)
      modifies this
      ensures recvBuffer == old(recvBuffer) + Joined(received)
    {
      var i := 0;
      while i < |received|
        invariant i <= |received|
        invariant recvBuffer + Joined(received[i..]) == old(recvBuffer) + Joined(received)
      {
        assert received[i..][1..] == received[i + 1..];
        assert (recvBuffer + received[i]) + Joined(received[i + 1..])
            == recvBuffer + (received[i] + Joined(received[i + 1..]));
        recvBuffer := recvBuffer + received[i];
        i := i + 1;
      }
      assert recvBuffer + [] == recvBuffer;
    }

    /** One round of the framing loop. */
    method Round() returns (out: seq<RawMessage>)
      requires !Waits(recvBuffer)
      modifies this
      ensures out == Emitted(traderId, old(recvBuffer))
      ensures recvBuffer == old(recvBuffer)[U16(old(recvBuffer), 0)..]
    {
      hide U16;
      var length := U16(recvBuffer, 0);
      if length > MAX_RAW_MSG_SIZE {
        recvBuffer := recvBuffer[length..];
        return [];
      }
      out := [RawMessage(traderId, length, recvBuffer[..length] + Zeros(MAX_RAW_MSG_SIZE - length))];
      recvBuffer := recvBuffer[length..];
    }

    /** The framing loop as far as its first n rounds, whatever the buffer holds. */
    method PushRounds(n: nat) returns (pushed: seq<RawMessage>)
      modifies this
      ensures pushed == Pushed(traderId, old(recvBuffer), n) && recvBuffer == Rounds(old(recvBuffer), n)
    {
      hide U16, Emitted;
      pushed := [];
      var i := 0;
      while i < n && !Waits(recvBuffer)
        invariant i <= n
        invariant pushed + Pushed(traderId, recvBuffer, n - i) == Pushed(traderId, old(recvBuffer), n)
        invariant Rounds(recvBuffer, n - i) == Rounds(old(recvBuffer), n)
      {
        ghost var was, next := recvBuffer, recvBuffer[U16(recvBuffer, 0)..];
        ghost var later := Pushed(traderId, next, n - i - 1);
        assert pushed + (Emitted(traderId, was) + later) == (pushed + Emitted(traderId, was)) + later;
        var out := Round();
        pushed := pushed + out;
        i := i + 1;
      }
      assert pushed + [] == pushed;
    }

    /** Pushes every complete message; a zero-length header would make this loop flood the ring. */
    method PushFrames() returns (pushed: seq<RawMessage>)
      requires NeverZero(recvBuffer)
      modifies this
      ensures Done(pushed, recvBuffer) == Frame(traderId, old(recvBuffer))
    {
      hide U16, NeverZero;
      DoneIffNeverZero(traderId, recvBuffer);
      pushed := [];
      ghost var goal := Frame(traderId, recvBuffer);
      AfterNothing(goal);
      while !Waits(recvBuffer)
        invariant Frame(traderId, recvBuffer).Done?
        invariant Frame(traderId, recvBuffer).After(pushed) == goal
        decreases |recvBuffer|
      {
        AfterTwice(Frame(traderId, recvBuffer[U16(recvBuffer, 0)..]), pushed, Emitted(traderId, recvBuffer));
        var out := Round();
        pushed := pushed + out;
      }
      assert pushed + [] == pushed;
    }

    /** One readiness callback: drain the socket, then frame. */
    method OnData(received: seq<Bytes>) returns (pushed: seq<RawMessage>)
      requires NeverZero(recvBuffer + Joined(received))
      modifies this
      ensures Done(pushed, recvBuffer) == Frame(traderId, old(recvBuffer) + Joined(received))
    {
      Receive(received);
      pushed := PushFrames();
    }
  }

  // ---- Well-formed streams ----

  function EncodeAll(ms: seq<Message>): Bytes {
    if ms == [] then [] else Encode(ms[0]) + EncodeAll(ms[1..])
  }

  function Envelope(trader: TraderId, m: Message): RawMessage {
    Layout(m);
    RawMessage(trader, SizeOf(m), Encode(m) + Zeros(MAX_RAW_MSG_SIZE - SizeOf(m)))
  }

  function Envelopes(trader: TraderId, ms: seq<Message>): seq<RawMessage> {
    if ms == [] then [] else [Envelope(trader, ms[0])] + Envelopes(trader, ms[1..])
  }

  lemma FrameOne(trader: TraderId, m: Message, more: Bytes)
    ensures Frame(trader, Encode(m) + more) == Frame(trader, more).After([Envelope(trader, m)])
  {
    hide U16, Encode;
    Layout(m);
    var b := Encode(m);
    SameHeader(b, more);
    assert (b + more)[SizeOf(m)..] == more;
    assert (b + more)[..SizeOf(m)] == b;
  }

  /** A stream of well-formed messages, cut off anywhere, frames into exactly their envelopes. */
  lemma {:induction false} FrameAll(trader: TraderId, ms: seq<Message>, more: Bytes)
    requires Waits(more)
    ensures Frame(trader, EncodeAll(ms) + more) == Done(Envelopes(trader, ms), more)
  {
    hide Encode, Waits, Envelope;
    if ms == [] {
      assert [] + more == more;
      FrameWaiting(trader, more);
    } else {
      var tail := EncodeAll(ms[1..]) + more;
      assert EncodeAll(ms) + more == Encode(ms[0]) + tail;
      FrameOne(trader, ms[0], tail);
      FrameAll(trader, ms[1..], more);
    }
  }

  lemma FrameWaiting(trader: TraderId, buf: Bytes)
    requires Waits(buf)
    ensures Frame(trader, buf) == Done([], buf)
  {
  }

  lemma EnvelopeDecodes(trader: TraderId, m: Message)
    ensures WellSized(Envelope(trader, m)) && Decode(Envelope(trader, m)) == Some(ToRequest(m, trader))
  {
    hide Encode, Decode;
    Layout(m);
    var raw := Envelope(trader, m);
    assert raw.data[..|Encode(m)|] == Encode(m);
    DecodeEncode(m, raw);
  }

  /** The requests a sequence of envelopes yields, skipping those that do not parse. */
  function DecodeAll(raws: seq<RawMessage>): seq<OrderRequest>
    requires forall raw | raw in raws :: WellSized(raw)
  {
    if raws == [] then []
    else
      assert raws[0] in raws;
      (match Decode(raws[0]) case Some(r) => [r] case None => []) + DecodeAll(raws[1..])
  }

  function Requests(trader: TraderId, ms: seq<Message>): seq<OrderRequest> {
    if ms == [] then [] else [ToRequest(ms[0], trader)] + Requests(trader, ms[1..])
  }

  lemma {:induction false} EnvelopesDecode(trader: TraderId, ms: seq<Message>)
    ensures forall raw | raw in Envelopes(trader, ms) :: WellSized(raw)
    ensures DecodeAll(Envelopes(trader, ms)) == Requests(trader, ms)
  {
    hide Decode, Envelope, ToRequest, WellSized;
    if ms != [] {
      EnvelopeDecodes(trader, ms[0]);
      EnvelopesDecode(trader, ms[1..]);
      assert Envelopes(trader, ms)[1..] == Envelopes(trader, ms[1..]);
    }
  }

  /** Wire round trip: messages encoded, concatenated, split into any chunks and framed decode to the
      same requests in the same order, and an incomplete tail stays in the buffer. */
  lemma WireRoundTrip(trader: TraderId, ms: seq<Message>, more: Bytes, chunks: seq<Bytes>)
    requires Waits(more) && Joined(chunks) == EncodeAll(ms) + more
    ensures var f := Feed(trader, [], chunks);
            && f.Done? && f.rest == more
            && (forall raw | raw in f.msgs :: WellSized(raw))
            && DecodeAll(f.msgs) == Requests(trader, ms)
  {
    hide Decode, Frame, Feed, Waits, Envelopes;
    ChunkIndependence(trader, [], chunks);
    assert [] + Joined(chunks) == Joined(chunks);
    FrameAll(trader, ms, more);
    EnvelopesDecode(trader, ms);
  }

  /** An oversized message between well-formed ones is dropped and costs none of them. */
  lemma OversizedDropped(trader: TraderId, before: seq<Message>, big: Bytes, after: seq<Message>)
    requires |big| > 128 && Two(big, 0) == |big|
    ensures Frame(trader, EncodeAll(before) + (big + EncodeAll(after)))
         == Done(Envelopes(trader, before) + Envelopes(trader, after), [])
  {
    hide Waits, Frame, Envelopes, EncodeAll, Pushed;
    var tail := EncodeAll(after);
    EmptyWaits();
    FrameAll(trader, after, []);
    assert tail + [] == tail;
    FrontBytes(trader, big + tail);
    assert (big + tail)[|big|..] == tail;
    AfterNothing(Frame(trader, tail));
    FrameAll(trader, before, []);
    assert EncodeAll(before) + [] == EncodeAll(before);
    FrameConcat(trader, EncodeAll(before), big + tail);
    assert [] + (big + tail) == big + tail;
  }

  lemma EmptyWaits()
    ensures Waits([])
  {
  }

  // ---- Streams cut off anywhere ----

  /** Whatever has arrived of a well-formed stream is some whole messages and an incomplete one. */
  lemma {:induction false} PrefixSplits(ms: seq<Message>, b: Bytes) returns (k: nat, more: Bytes)
    requires b <= EncodeAll(ms)
    ensures k <= |ms| && Waits(more) && b == EncodeAll(ms[..k]) + more
  {
    hide Encode, U16;
    if ms == [] {
      return 0, b;
    }
    Layout(ms[0]);
    var e := Encode(ms[0]);
    if |b| < |e| {
      assert b == e[..|b|] by {
        assert b == EncodeAll(ms)[..|b|];
      }
      HeaderAhead(e, |b|);
      assert ms[..0] == [] && EncodeAll(ms[..0]) + b == b;
      return 0, b;
    }
    assert b == e + b[|e|..] by {
      assert b[..|e|] == EncodeAll(ms)[..|e|] == e;
    }
    assert b[|e|..] <= EncodeAll(ms[1..]) by {
      assert EncodeAll(ms)[|e|..] == EncodeAll(ms[1..]);
      assert b[|e|..] == EncodeAll(ms)[|e|..|b|];
    }
    var k', more' := PrefixSplits(ms[1..], b[|e|..]);
    assert ms[..k' + 1][1..] == ms[1..][..k'];
    assert EncodeAll(ms[..k' + 1]) == e + EncodeAll(ms[1..][..k']);
    return k' + 1, more';
  }

  lemma HeaderAhead(e: Bytes, n: nat)
    requires HEADER_SIZE <= |e| && n < |e| && U16(e, 0) == |e|
    ensures Waits(e[..n])
  {
    if n >= HEADER_SIZE {
      assert e[..n][0..2] == e[0..2];
    }
  }

  lemma {:induction false} FrameWellSized(trader: TraderId, buf: Bytes)
    ensures forall raw | raw in Frame(trader, buf).msgs :: WellSized(raw) && raw.traderId == trader
    decreases |buf|
  {
    hide U16;
    if !Waits(buf) && U16(buf, 0) > 0 {
      FrameWellSized(trader, buf[U16(buf, 0)..]);
    }
  }

  lemma {:induction false} RequestsPrefix(trader: TraderId, ms: seq<Message>, k: nat)
    requires k <= |ms|
    ensures Requests(trader, ms[..k]) <= Requests(trader, ms)
  {
    hide ToRequest;
    if k > 0 {
      assert ms[..k][1..] == ms[1..][..k - 1];
      RequestsPrefix(trader, ms[1..], k - 1);
    }
  }

  // ---- Decoding in parts ----

  lemma {:induction false} DecodeConcat(a: seq<RawMessage>, b: seq<RawMessage>)
    requires forall raw | raw in a + b :: WellSized(raw)
    ensures forall raw | raw in a :: raw in a + b
    ensures forall raw | raw in b :: raw in a + b
    ensures DecodeAll(a + b) == DecodeAll(a) + DecodeAll(b)
  {
    hide Decode;
    if a == [] {
      assert a + b == b;
    } else {
      assert (a + b)[0] == a[0] && (a + b)[1..] == a[1..] + b;
      assert forall raw | raw in a[1..] + b :: raw in a + b;
      DecodeConcat(a[1..], b);
      var h := match Decode(a[0]) case Some(r) => [r] case None => [];
      assert h + (DecodeAll(a[1..]) + DecodeAll(b)) == (h + DecodeAll(a[1..])) + DecodeAll(b);
    }
  }

  lemma DecodePrefix(a: seq<RawMessage>, b: seq<RawMessage>)
    requires a <= b && forall raw | raw in b :: WellSized(raw)
    ensures forall raw | raw in a :: WellSized(raw)
    ensures DecodeAll(a) <= DecodeAll(b)
  {
    hide Decode;
    assert b == a + b[|a|..];
    DecodeConcat(a, b[|a|..]);
  }

  lemma DecodeSingle(raw: RawMessage)
    requires WellSized(raw)
    ensures DecodeAll([raw]) == match Decode(raw) case Some(r) => [r] case None => []
  {
    hide Decode;
    assert [raw][1..] == [];
  }
}
