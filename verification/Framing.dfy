/** The frames of src/connection.c: two bytes of length, low byte first, and the message. */
module Framing {
  import opened Options

  type Byte = x: int | 0 <= x < 256

  const FRAME_LIMIT := 0x1_0000

  /** `buf[0] = len; buf[1] = len >> 8;` into bytes. */
  function Header(n: nat): seq<Byte> {
    [n % 256, n / 256 % 256]
  }

  /** `lothar_nxttohs`. */
  function HeaderValue(low: Byte, high: Byte): nat {
    low + 256 * high
  }

  function Frame(message: seq<Byte>): seq<Byte> {
    Header(|message|) + message
  }

  /** The first message of a stream and what follows it; None when the stream ends before. */
  function Parse(stream: seq<Byte>): Option<(seq<Byte>, seq<Byte>)> {
    if |stream| < 2 then None
    else
      var size := HeaderValue(stream[0], stream[1]);
      if |stream| < 2 + size then None
      else Some((stream[2..2 + size], stream[2 + size..]))
  }

  /** The length that arrives is the length sent, modulo 65536: its low byte goes first. */
  lemma HeaderRoundTrip(n: nat)
    ensures HeaderValue(Header(n)[0], Header(n)[1]) == n % FRAME_LIMIT
    ensures |Header(n)| == 2 && Header(n)[0] as int + 256 * Header(n)[1] as int == n % 65536
    ensures forall low: Byte, high: Byte :: HeaderValue(low, high) == low as int + 256 * high as int
  {
    var q, low := n / 256, n % 256;
    assert n == 256 * (256 * (q / 256) + q % 256) + low;
    assert n == FRAME_LIMIT * (q / 256) + (256 * (q % 256) + low);
    assert 0 <= 256 * (q % 256) + low < FRAME_LIMIT;
    ModuloUnique(n, q / 256, 256 * (q % 256) + low);
  }

  lemma ModuloUnique(n: nat, a: nat, r: nat)
    requires n == FRAME_LIMIT * a + r && r < FRAME_LIMIT
    ensures n % FRAME_LIMIT == r
  {
  }

  /** A frame followed by anything is read back as the message, followed by the same, exactly
      when the message is shorter than 65536 bytes. */
  lemma FrameRoundTripIff(message: seq<Byte>, tail: seq<Byte>)
    ensures Parse(Frame(message) + tail) == Some((message, tail)) <==> |message| < FRAME_LIMIT
  {
    var stream := Frame(message) + tail;
    var n := |message|;
    HeaderRoundTrip(n);
    assert stream[0] == Header(n)[0] && stream[1] == Header(n)[1];
    if n < FRAME_LIMIT {
      assert stream[2..2 + n] == message;
      assert stream[2 + n..] == tail;
    } else {
      var size := n % FRAME_LIMIT;
      assert size < n;
    }
  }

  /** Messages sent one after the other. */
  function Frames(messages: seq<seq<Byte>>): seq<Byte> {
    if messages == [] then [] else Frame(messages[0]) + Frames(messages[1..])
  }

  /** The first `n` messages of a stream and what follows them. */
  function ParseAll(stream: seq<Byte>, n: nat): Option<(seq<seq<Byte>>, seq<Byte>)> {
    if n == 0 then Some(([], stream))
    else match Parse(stream)
      case None => None
      case Some((message, rest)) =>
        match ParseAll(rest, n - 1)
        case None => None
        case Some((messages, end)) => Some(([message] + messages, end))
  }

  /** Sending one more message appends its frame. */
  lemma {:induction false} FramesAppend(messages: seq<seq<Byte>>, message: seq<Byte>)
    ensures Frames(messages + [message]) == Frames(messages) + Frame(message)
  {
    if messages == [] {
      assert [message][1..] == [];
      assert Frame(message) + [] == Frame(message) && [] + Frame(message) == Frame(message);
      assert [] + [message] == [message];
    } else {
      assert (messages + [message])[1..] == messages[1..] + [message];
      FramesAppend(messages[1..], message);
    }
  }

  /** Any list of messages shorter than 65536 bytes comes back identical and in order, and what
      was sent after them is left untouched. */
  lemma {:induction false} FramesRoundTrip(messages: seq<seq<Byte>>, tail: seq<Byte>)
    requires forall i :: 0 <= i < |messages| ==> |messages[i]| < FRAME_LIMIT
    ensures ParseAll(Frames(messages) + tail, |messages|) == Some((messages, tail))
  {
    hide Parse, Frame;
    if messages == [] {
      assert [] + tail == tail;
    } else {
      var rest := Frames(messages[1..]) + tail;
      assert Frames(messages) + tail == Frame(messages[0]) + rest;
      FrameRoundTripIff(messages[0], rest);
      FramesRoundTrip(messages[1..], tail);
      assert messages == [messages[0]] + messages[1..];
    }
  }

  /** So the framing is unambiguous. */
  lemma FramesInjective(a: seq<seq<Byte>>, b: seq<seq<Byte>>)
    requires forall i :: 0 <= i < |a| ==> |a[i]| < FRAME_LIMIT
    requires forall i :: 0 <= i < |b| ==> |b[i]| < FRAME_LIMIT
    requires Frames(a) == Frames(b)
    ensures a == b
    decreases |b| < |a|
  {
    if |b| < |a| {
      FramesInjective(b, a);
    } else {
      FramesRoundTrip(a, []);
      FramesRoundTrip(b[..|a|], Frames(b[|a|..]));
      FramesSplit(b, |a|);
      assert Frames(a) + [] == Frames(a);
      assert Frames(b[|a|..]) == [];
      assert b[|a|..] == [];
      assert b[..|a|] == b;
    }
  }

  lemma {:induction false} FramesSplit(messages: seq<seq<Byte>>, k: nat)
    requires k <= |messages|
    ensures Frames(messages) == Frames(messages[..k]) + Frames(messages[k..])
  {
    hide Frame;
    if k == 0 {
      assert messages[..0] == [] && messages[0..] == messages;
    } else {
      assert messages[1..][..k - 1] == messages[..k][1..] && messages[1..][k - 1..] == messages[k..];
      FramesSplit(messages[1..], k - 1);
    }
  }
}
