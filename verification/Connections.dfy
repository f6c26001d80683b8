/** `lothar_bt_write` and `lothar_bt_read` of src/connection.c over a backend that is a byte
    stream in each direction. */
module Connections {
  import opened Framing
  import opened Options

  /** How far a write of `n` bytes gets when the backend answers its calls with these counts:
      whether it got to the end, how many bytes were taken, and the answers not yet used. A
      backend with no answers left is a broken one. */
  function Deliver(n: nat, w: nat, answers: seq<int>): (bool, nat, seq<int>)
    decreases |answers|
  {
    if w >= n then (true, w, answers)
    else if answers == [] then (false, w, [])
    else if answers[0] <= 0 then (false, w, answers[1..])
    else Deliver(n, w + Taken(answers[0], n - w), answers[1..])
  }

  /** A backend never takes more than it was offered. */
  function Taken(answer: int, offered: nat): int {
    if answer > offered then offered else answer
  }

  ghost function Sum(answers: seq<int>): int {
    if answers == [] then 0 else answers[0] + Sum(answers[1..])
  }

  /** The first `k` answers are positive and together reach `n`. */
  ghost predicate Reaches(answers: seq<int>, k: nat, n: int) {
    k <= |answers| && (forall i :: 0 <= i < k ==> answers[i] > 0) && Sum(answers[..k]) >= n
  }

  /** The write loop gets to the end exactly when some initial answers are all positive and add up
      to the length; it then takes precisely the whole, and otherwise less.  It never asks more
      often than there are bytes to send, and once more to be told of a failure. */
  lemma {:induction false} DeliverMeaning(n: nat, w: nat, answers: seq<int>, need: nat)
    requires w + need == n
    ensures var (done, taken, rest) := Deliver(n, w, answers);
      && (done <==> exists k: nat :: Reaches(answers, k, need))
      && (done ==> taken == n) && (!done ==> w <= taken < n)
      && |rest| <= |answers| <= |rest| + need + 1
      && (done ==> |answers| <= |rest| + need)
    decreases |answers|
  {
    if need == 0 {
      assert Reaches(answers, 0, need);
    } else if answers == [] || answers[0] <= 0 {
      forall k: nat ensures !Reaches(answers, k, need) {
        assert answers[..0] == [];
      }
    } else {
      var got := Taken(answers[0], need);
      var need' := need - got;
      DeliverMeaning(n, w + got, answers[1..], need');
      forall k: nat | Reaches(answers[1..], k, need') ensures Reaches(answers, k + 1, need) {
        ReachesLater(answers, k, need, need');
      }
      forall k: nat | Reaches(answers, k, need) ensures exists k': nat :: Reaches(answers[1..], k', need') {
        assert answers[..0] == [];
        ReachesEarlier(answers, k, need, need');
      }
    }
  }

  lemma ReachesLater(answers: seq<int>, k: nat, n: int, n': int)
    requires |answers| > 0 && answers[0] > 0 && Reaches(answers[1..], k, n') && n - answers[0] <= n'
    ensures Reaches(answers, k + 1, n)
  {
    assert answers[..k + 1][1..] == answers[1..][..k];
    assert forall i :: 0 < i < k + 1 ==> answers[i] == answers[1..][i - 1];
  }

  lemma ReachesEarlier(answers: seq<int>, k: nat, n: nat, n': int)
    requires k > 0 && Reaches(answers, k, n) && n' == n - Taken(answers[0], n)
    ensures exists k': nat :: Reaches(answers[1..], k', n')
  {
    if answers[0] >= n {
      assert answers[1..][..0] == [];
      assert Reaches(answers[1..], 0, n');
    } else {
      assert answers[..k][1..] == answers[1..][..k - 1];
      assert Reaches(answers[1..], k - 1, n');
    }
  }

  /** When nothing fails, as many answers as there are bytes to send are enough. */
  lemma {:induction false} EnoughAnswers(n: nat, w: nat, answers: seq<int>)
    requires w <= n && |answers| >= n - w && forall i :: 0 <= i < |answers| ==> answers[i] > 0
    ensures var (done, _, rest) := Deliver(n, w, answers);
      && done && |rest| >= |answers| - (n - w)
      && forall i :: 0 <= i < |rest| ==> rest[i] > 0
    decreases n - w
  {
    if w < n {
      EnoughAnswers(n, w + Taken(answers[0], n - w), answers[1..]);
    }
  }

  // ---------- What the read calls bring ----------

  function Min(a: int, b: int): int {
    if a < b then a else b
  }

  /** What a read of `n` bytes answers.  `limits` says for each call how many bytes are there for it
      at most, or that it fails; a backend with no limits left gives all that is asked for as long
      as the stream lasts. */
  function ReadCount(n: nat, stream: seq<Byte>, limits: seq<int>): (r: int)
    ensures r <= n && r <= |stream|
  {
    if limits == [] then Min(n, |stream|)
    else if limits[0] <= 0 then limits[0]
    else Min(limits[0], Min(n, |stream|))
  }

  function Later<T>(s: seq<T>): seq<T> {
    if s == [] then [] else s[1..]
  }

  /** The bytes that a call takes from the stream. */
  function Got(count: int, stream: seq<Byte>): seq<Byte>
    requires count <= |stream|
  {
    if count > 0 then stream[..count] else []
  }

  function After(count: int, stream: seq<Byte>): seq<Byte>
    requires count <= |stream|
  {
    if count > 0 then stream[count..] else stream
  }

  /** A `uint16_t`. */
  function Wrap16(x: int): (r: nat)
    ensures 0 <= x < FRAME_LIMIT ==> r == x
  {
    x % FRAME_LIMIT
  }

  /** The loop that is to skip the rest of a message, two bytes at a time; the 16-bit counter wraps. */
  function Drained(size: nat, stream: seq<Byte>, limits: seq<int>): (seq<Byte>, seq<int>)
    decreases |stream|
  {
    var count := ReadCount(2, stream, limits);
    if size == 0 then (stream, limits)
    else if count <= 0 then (stream, Later(limits))
    else Drained(Wrap16(size - count), stream[count..], Later(limits))
  }

  /** What `lothar_bt_read` returns, what it writes to the caller's buffer and beyond, and what it
      leaves. */
  datatype ReadResult = ReadResult(status: int, written: seq<Byte>, stream: seq<Byte>, limits: seq<int>)

  /** What follows the header: `size` bytes are announced, and the buffer has `len`. */
  function ReadBody(size: nat, stream: seq<Byte>, limits: seq<int>, len: nat): ReadResult {
    var count := ReadCount(size, stream, limits);
    var rest := After(count, stream);
    if size > len then
      var (rest', limits') := Drained(Wrap16(size - count), rest, Later(limits));
      ReadResult(len, Got(count, stream), rest', limits')
    else ReadResult(count, Got(count, stream), rest, Later(limits))
  }

  /** `lothar_bt_read` into a buffer of `len` bytes.  `stale` is what the uninitialised header
      variable holds: a header read that answers 0 is not taken for a failure. */
  function ReadFrame(stream: seq<Byte>, limits: seq<int>, len: nat, stale: (Byte, Byte)): ReadResult {
    var h := ReadCount(2, stream, limits);
    var rest, limits' := After(h, stream), Later(limits);
    if h != 0 && h != 2 then ReadResult(-1, [], rest, limits')
    else
      var size := if h == 2 then HeaderValue(stream[0], stream[1]) else HeaderValue(stale.0, stale.1);
      ReadBody(size, rest, limits', len)
  }

  /** The next `k` calls bring all that is asked for as long as the stream has it. */
  ghost predicate Generous(limits: seq<int>, k: nat) {
    forall i :: 0 <= i < k && i < |limits| ==> limits[i] >= FRAME_LIMIT
  }

  /** The stream after the header, when that is read in full. */
  lemma HeaderRead(message: seq<Byte>, tail: seq<Byte>)
    requires |message| < FRAME_LIMIT
    ensures var stream := Frame(message) + tail;
      |stream| >= 2 && HeaderValue(stream[0], stream[1]) == |message| && stream[2..] == message + tail
  {
  }

  lemma ReadBodyIff(message: seq<Byte>, tail: seq<Byte>, limits: seq<int>, len: nat)
    requires |message| <= len
    ensures ReadBody(|message|, message + tail, limits, len) == ReadResult(|message|, message, tail, Later(limits))
            <==> ReadCount(|message|, message + tail, limits) == |message|
  {
  }

  /** With a header read that brings nothing, a stale header of 0 leaves the stream as it is; with
      one that fails or brings one byte, at most that byte is taken. */
  lemma HeaderCutShort(stream: seq<Byte>, limits: seq<int>, len: nat)
    requires ReadCount(2, stream, limits) != 2
    ensures |ReadFrame(stream, limits, len, (0, 0)).stream| >= |stream| - 1
  {
  }

  /** A frame whose message fits in the buffer is sure to be read as that message, and the stream
      to be left just after it, exactly when neither the read of the header nor that of the body is
      cut short. */
  lemma ReadFrameIff(message: seq<Byte>, tail: seq<Byte>, limits: seq<int>, len: nat)
    requires |message| <= len && |message| < FRAME_LIMIT
    ensures var stream, result := Frame(message) + tail, ReadResult(|message|, message, tail, Later(Later(limits)));
      (forall stale :: ReadFrame(stream, limits, len, stale) == result)
      <==> ReadCount(2, stream, limits) == 2 && ReadCount(|message|, message + tail, Later(limits)) == |message|
  {
    hide ReadCount, ReadBody, HeaderValue, Later, Frame;
    var stream := Frame(message) + tail;
    HeaderRead(message, tail);
    ReadBodyIff(message, tail, Later(limits), len);
    if ReadCount(2, stream, limits) == 2 {
      forall stale
        ensures ReadFrame(stream, limits, len, stale) == ReadBody(|message|, message + tail, Later(limits), len)
      {
      }
      assert ReadFrame(stream, limits, len, (0, 0)) == ReadBody(|message|, message + tail, Later(limits), len);
    } else {
      HeaderCutShort(stream, limits, len);
      assert |stream| == |stream[2..]| + 2;
      assert ReadFrame(stream, limits, len, (0, 0)).stream != tail;
    }
  }

  /** The whole outcome when no read call is cut short. */
  lemma ReadFrameGenerous(stream: seq<Byte>, limits: seq<int>, len: nat, stale: (Byte, Byte))
    requires Generous(limits, 3)
    ensures var r := ReadFrame(stream, limits, len, stale);
      match Parse(stream)
      case Some((message, rest)) =>
        r.written == message && r.stream == rest && r.status == Min(|message|, len)
      case None =>
        && r.stream == []
        && (|stream| == 0 ==>
              r.written == [] && r.status == if HeaderValue(stale.0, stale.1) > len then len else 0)
        && (|stream| == 1 ==>
              r.written == [] && r.status == -1)
        && (|stream| >= 2 ==>
              && r.written == stream[2..]
              && r.status == if HeaderValue(stream[0], stream[1]) > len then len else |stream| - 2)
  {
  }

  /** When no call is cut short, what is written stays within the caller's buffer exactly when the
      message announced is no longer than it, or no more bytes than `len` of it have come. */
  lemma StaysInBufferIff(stream: seq<Byte>, limits: seq<int>, len: nat, stale: (Byte, Byte))
    requires Generous(limits, 3)
    ensures |ReadFrame(stream, limits, len, stale).written| <= len
            <==> (|stream| >= 2 ==> HeaderValue(stream[0], stream[1]) <= len || |stream| - 2 <= len)
  {
  }

  /** The loop skips the rest of the message, and nothing else, exactly when the number of bytes
      left is even or nothing follows.  With an odd number it reads one byte too many, the counter
      wraps to 65535, and everything that follows is lost. */
  lemma {:induction false} DrainSkipsIff(size: nat, stream: seq<Byte>)
    requires size < FRAME_LIMIT && size <= |stream|
    ensures Drained(size, stream, []).0 == stream[size..] <==> size % 2 == 0 || size == |stream|
    ensures size % 2 == 1 ==> Drained(size, stream, []).0 == []
    decreases |stream|
  {
    if size >= 2 {
      DrainSkipsIff(size - 2, stream[2..]);
      assert stream[2..][size - 2..] == stream[size..];
    } else if size == 1 {
      OddEatsAll(size, stream);
    }
  }

  lemma {:induction false} OddEatsAll(size: nat, stream: seq<Byte>)
    requires size < FRAME_LIMIT && size % 2 == 1
    ensures Drained(size, stream, []).0 == []
    decreases |stream|
  {
    if |stream| == 1 {
      assert Drained(size - 1, stream[1..], []).0 == [];
    } else if |stream| >= 2 {
      OddEatsAll(Wrap16(size - 2), stream[2..]);
    }
  }

  lemma OversizeBody(message: seq<Byte>, tail: seq<Byte>, c: nat, len: nat)
    requires len < |message| < FRAME_LIMIT && 0 < c <= |message|
    ensures var body := message + tail;
      var (rest, limits) := Drained(|message| - c, body[c..], []);
      ReadBody(|message|, body, [c], len) == ReadResult(len, message[..c], rest, limits)
  {
  }

  /** A message longer than the buffer, of which the first read brings `c` bytes: they are written
      from the beginning of the buffer on, past its end if there are more than `len`; what follows
      the message survives exactly when an even number of its bytes is left to skip. */
  lemma OversizeSkipsIff(message: seq<Byte>, tail: seq<Byte>, c: nat, len: nat, stale: (Byte, Byte))
    requires len < |message| < FRAME_LIMIT && 0 < c <= |message|
    ensures var r := ReadFrame(Frame(message) + tail, [2, c], len, stale);
      && r.status == len && r.written == message[..c]
      && (r.stream == tail <==> (|message| - c) % 2 == 0 || tail == [])
  {
    hide Drained, Frame, ReadBody, HeaderValue;
    var stream, body := Frame(message) + tail, message + tail;
    HeaderRead(message, tail);
    assert Later<int>([2, c]) == [c];
    assert ReadFrame(stream, [2, c], len, stale) == ReadBody(|message|, body, [c], len);
    OversizeBody(message, tail, c, len);
    DrainSkipsIff(|message| - c, body[c..]);
    assert body[c..][|message| - c..] == tail;
  }

  /** What a failing read call brings.  If that of the header fails or brings one byte, the answer is -1;
      if that of a body that fits fails, its error.  In no case has the buffer changed. */
  lemma ReadFrameFails(stream: seq<Byte>, limits: seq<int>, len: nat, stale: (Byte, Byte))
    ensures limits != [] && limits[0] < 0 ==>
      ReadFrame(stream, limits, len, stale) == ReadResult(-1, [], stream, limits[1..])
    ensures stream != [] && (limits == [] || limits[0] > 0) && (|stream| == 1 || (limits != [] && limits[0] == 1)) ==>
      ReadFrame(stream, limits, len, stale) == ReadResult(-1, [], stream[1..], Later(limits))
    ensures |limits| >= 2 && limits[0] >= 2 && limits[1] < 0 && |stream| >= 2
            && stream[0] + 256 * stream[1] <= len ==>
      var r := ReadFrame(stream, limits, len, stale);
      r.status == limits[1] && r.written == [] && r.stream == stream[2..]
  {
    hide Drained;
  }

  // ---------- The backend ----------

  /** A Bluetooth backend: what it has been given and how it will answer to writes, what it has to
      give and how much of it each read may bring. */
  class Backend {
    var sent: seq<Byte>
    var answers: seq<int>
    var incoming: seq<Byte>
    var limits: seq<int>

    constructor (answers: seq<int>, incoming: seq<Byte>, limits: seq<int>)
      ensures sent == [] && this.answers == answers && this.incoming == incoming && this.limits == limits
    {
      sent, this.answers, this.incoming, this.limits := [], answers, incoming, limits;
    }

    method Write(data: seq<Byte>) returns (w: int)
      modifies `sent, `answers
      ensures if old(answers) == [] then w == -1 && answers == []
              else w == Taken(old(answers)[0], |data|) && answers == old(answers)[1..]
      ensures sent == if w > 0 then old(sent) + data[..w] else old(sent)
    {
      if answers == [] {
        return -1;
      }
      w := Taken(answers[0], |data|);
      answers := answers[1..];
      if w > 0 {
        sent := sent + data[..w];
      }
    }

    /** Asks for `n` bytes, which may be more than the block has room for; what comes beyond its end
        is not stored here. */
    method Read(data: array<Byte>, n: nat) returns (r: int)
      modifies `incoming, `limits, data
      ensures r == ReadCount(n, old(incoming), old(limits))
      ensures incoming == After(r, old(incoming)) && limits == Later(old(limits))
      ensures forall i :: 0 <= i < data.Length ==> data[i] == if i < r then old(incoming)[i] else old(data[i])
    {
      r := ReadCount(n, incoming, limits);
      var i := 0;
      while i < r && i < data.Length
        invariant 0 <= i <= data.Length && (i <= r || (i == 0 && r < 0))
        invariant incoming == old(incoming) && limits == old(limits)
        invariant forall k :: 0 <= k < data.Length ==> data[k] == if k < i then incoming[k] else old(data[k])
      {
        data[i] := incoming[i];
        i := i + 1;
      }
      incoming, limits := After(r, incoming), Later(limits);
    }
  }

  /** The frame in a buffer of its own. */
  method Enframe(data: seq<Byte>) returns (buf: array<Byte>)
    ensures fresh(buf) && buf[..] == Frame(data) && buf.Length == |data| + 2
  {
    var len := |data|;
    buf := new Byte[len + 2](_ => 0);
    buf[0] := len % 256;
    buf[1] := len / 256 % 256;
    forall i | 0 <= i < len {
      buf[i + 2] := data[i];
    }
  }

  /** Sends one frame.  Partial writes lose and repeat nothing: success means that the backend got
      exactly the frame, failure that it got a proper prefix of it. */
  method BtWrite(connection: Backend, data: seq<Byte>) returns (status: int)
    modifies connection`sent, connection`answers
    ensures var frame := Frame(data);
      var (done, taken, rest) := Deliver(|frame|, 0, old(connection.answers));
      && status == (if done then |data| else -1)
      && taken <= |frame| && connection.sent == old(connection.sent) + frame[..taken]
      && (done ==> connection.sent == old(connection.sent) + frame)
      && (!done ==> taken < |frame|)
      && connection.answers == rest
  {
    hide Frame, Header;
    var len := |data|;
    var buf := Enframe(data);
    var w: nat := 0;
    ghost var frame := Frame(data);
    DeliverMeaning(len + 2, 0, connection.answers, len + 2);
    while w < len + 2
      invariant w <= len + 2 == |frame| && buf[..] == frame
      invariant Deliver(len + 2, w, connection.answers) == Deliver(len + 2, 0, old(connection.answers))
      invariant connection.sent == old(connection.sent) + frame[..w]
      decreases |connection.answers|, len + 2 - w
    {
      ghost var w0 := w;
      assert buf[w..] == frame[w..];
      var got := connection.Write(buf[w..]);
      if got <= 0 {
        return -1;
      }
      w := w + got;
      assert frame[..w0] + frame[w0..][..got] == frame[..w];
    }
    assert frame[..w] == frame;
    status := len;
  }

  /** Reads one frame into `data`.  `reach` is how many bytes are written from its beginning on,
      those beyond its end included. */
  method BtRead(connection: Backend, data: array<Byte>, stale: (Byte, Byte)) returns (status: int, ghost reach: nat)
    modifies connection`incoming, connection`limits, data
    ensures var r := ReadFrame(old(connection.incoming), old(connection.limits), data.Length, stale);
      && status == r.status && connection.incoming == r.stream && connection.limits == r.limits
      && reach == |r.written|
      && forall i :: 0 <= i < data.Length ==> data[i] == if i < reach then r.written[i] else old(data[i])
  {
    hide ReadCount, HeaderValue, Drained, Wrap16;
    var buf := new Byte[2](_ => 0);
    buf[0], buf[1] := stale.0, stale.1;
    status := connection.Read(buf, 2);
    if status != 0 && status != 2 {
      return -1, 0;
    }
    var size := HeaderValue(buf[0], buf[1]);
    ghost var rest := connection.incoming;
    if size > data.Length {
      var tr := connection.Read(data, size);
      reach := |Got(tr, rest)|;
      size := Wrap16(size - tr);
      Drain(connection, size);
      status := data.Length;
    } else if data.Length > size {
      status := connection.Read(data, size);
      reach := |Got(status, rest)|;
    } else {
      status := connection.Read(data, data.Length);
      reach := |Got(status, rest)|;
    }
  }

  /** Reads what is left of a message that did not fit. */
  method Drain(connection: Backend, left: nat)
    modifies connection`incoming, connection`limits
    ensures (connection.incoming, connection.limits) == Drained(left, old(connection.incoming), old(connection.limits))
  {
    var buf := new Byte[2](_ => 0);
    var size: nat := left;
    while size != 0
      invariant fresh(buf)
      invariant Drained(size, connection.incoming, connection.limits)
             == Drained(left, old(connection.incoming), old(connection.limits))
      decreases |connection.incoming|
    {
      var tr := connection.Read(buf, 2);
      if tr <= 0 {
        return;
      }
      size := Wrap16(size - tr);
    }
  }

  // ---------- Many messages ----------

  /** Sends messages one after the other until one fails.  The backend then has the frames of the
      first `count` messages, and of the next one a proper prefix, if it was tried. */
  method SendMessages(connection: Backend, messages: seq<seq<Byte>>) returns (count: nat, ghost part: seq<Byte>)
    modifies connection`sent, connection`answers
    ensures count <= |messages|
    ensures connection.sent == old(connection.sent) + Frames(messages[..count]) + part
    ensures if count == |messages| then part == [] else part < Frame(messages[count])
    ensures Supply(old(connection.answers), |Frames(messages)|) ==> count == |messages|
  {
    hide Frame, Deliver, Frames, Supply;
    count, part := 0, [];
    NothingSent(messages);
    while count < |messages|
      invariant count <= |messages|
      invariant connection.sent == old(connection.sent) + Frames(messages[..count])
      invariant Supply(old(connection.answers), |Frames(messages)|) ==>
        Supply(connection.answers, |Frames(messages[count..])|)
    {
      ghost var before, answers, frame := connection.sent, connection.answers, Frame(messages[count]);
      var status := BtWrite(connection, messages[count]);
      OneMoreSent(messages, count, answers);
      if status < 0 {
        part := connection.sent[|before|..];
        assert part == frame[..Deliver(|frame|, 0, answers).1];
        return;
      }
      assert connection.sent == old(connection.sent) + (Frames(messages[..count]) + frame);
      count := count + 1;
    }
    assert messages[..count] == messages;
  }

  /** Enough answers, and no failure among them. */
  ghost predicate Supply(answers: seq<int>, n: nat) {
    |answers| >= n && forall i :: 0 <= i < |answers| ==> answers[i] > 0
  }

  lemma NothingSent(messages: seq<seq<Byte>>)
    ensures Frames(messages[..0]) == [] && messages[0..] == messages
  {
  }

  lemma OneMoreSent(messages: seq<seq<Byte>>, k: nat, answers: seq<int>)
    requires k < |messages|
    ensures Frames(messages[..k + 1]) == Frames(messages[..k]) + Frame(messages[k])
    ensures Supply(answers, |Frames(messages[k..])|) ==>
      var (done, _, rest) := Deliver(|Frame(messages[k])|, 0, answers);
      done && Supply(rest, |Frames(messages[k + 1..])|)
  {
    hide Frame, Deliver;
    assert messages[..k] + [messages[k]] == messages[..k + 1];
    FramesAppend(messages[..k], messages[k]);
    assert messages[k..][1..] == messages[k + 1..];
    if Supply(answers, |Frames(messages[k..])|) {
      EnoughAnswers(|Frame(messages[k])|, 0, answers);
    }
  }

  /** Reads `n` messages, each into a buffer of `len` bytes. */
  method ReceiveMessages(connection: Backend, n: nat, len: nat) returns (received: seq<seq<Byte>>)
    requires connection.limits == []
    modifies connection`incoming, connection`limits
    ensures match ParseAll(old(connection.incoming), n)
      case None => true
      case Some((messages, rest)) =>
        (forall m :: m in messages ==> |m| <= len) ==> received == messages && connection.incoming == rest
  {
    hide ParseAll, Parse, ReadFrame;
    received := [];
    ghost var all := ParseAll(connection.incoming, n);
    StillToCome(connection.incoming, n);
    for i := 0 to n
      invariant connection.limits == []
      invariant all.Some? && Fits(all.value.0, len) ==> ToCome(all.value, received, connection.incoming, n - i)
    {
      ghost var before := connection.incoming;
      var data := new Byte[len](_ => 0);
      var status, reach := BtRead(connection, data, (0, 0));
      ReadFrameGenerous(before, [], len, (0, 0));
      NoLimitsLater(before, len, (0, 0));
      ghost var was := received;
      if 0 <= status <= len {
        received := received + [data[..status]];
      }
      if all.Some? && Fits(all.value.0, len) {
        OneMoreReceived(all.value, was, before, n - i, len);
        assert data[..status] == Parse(before).value.0;
      }
    }
    if all.Some? && Fits(all.value.0, len) {
      AllReceived(all.value, received, connection.incoming);
    }
  }

  ghost predicate Fits(messages: seq<seq<Byte>>, len: nat) {
    forall m :: m in messages ==> |m| <= len
  }

  /** What has been received, and what can still be parsed, make up the whole. */
  ghost predicate ToCome(all: (seq<seq<Byte>>, seq<Byte>), received: seq<seq<Byte>>, stream: seq<Byte>, n: nat) {
    match ParseAll(stream, n)
    case None => false
    case Some((messages, rest)) => all == (received + messages, rest)
  }

  lemma StillToCome(stream: seq<Byte>, n: nat)
    ensures ParseAll(stream, n).Some? ==> ToCome(ParseAll(stream, n).value, [], stream, n)
  {
    hide ParseAll;
    if ParseAll(stream, n).Some? {
      assert [] + ParseAll(stream, n).value.0 == ParseAll(stream, n).value.0;
    }
  }

  lemma OneMoreReceived(all: (seq<seq<Byte>>, seq<Byte>), received: seq<seq<Byte>>, stream: seq<Byte>, n: nat,
      len: nat)
    requires n > 0 && ToCome(all, received, stream, n) && Fits(all.0, len)
    ensures match Parse(stream)
      case None => false
      case Some((message, rest)) => |message| <= len && ToCome(all, received + [message], rest, n - 1)
  {
    hide Parse;
    var (message, rest) := Parse(stream).value;
    var messages := ParseAll(rest, n - 1).value.0;
    assert received + ([message] + messages) == received + [message] + messages;
    assert message in all.0 by { assert all.0[|received|] == message; }
  }

  lemma AllReceived(all: (seq<seq<Byte>>, seq<Byte>), received: seq<seq<Byte>>, stream: seq<Byte>)
    requires ToCome(all, received, stream, 0)
    ensures all == (received, stream)
  {
    assert received + [] == received;
  }

  lemma NoLimitsLater(stream: seq<Byte>, len: nat, stale: (Byte, Byte))
    ensures ReadFrame(stream, [], len, stale).limits == []
  {
  }

  /** From end to end: the messages that the sender's backend has taken in full arrive identical and
      in order, whatever partial writes there were; if writing does not fail, these are all, and
      nothing is left over. */
  method SendAndReceive(sender: Backend, messages: seq<seq<Byte>>)
      returns (received: seq<seq<Byte>>, ghost part: seq<Byte>)
    requires sender.sent == [] && forall m :: m in messages ==> |m| < FRAME_LIMIT
    modifies sender`sent, sender`answers
    ensures received <= messages && sender.sent == Frames(received) + part
    ensures if |received| == |messages| then part == [] else part < Frame(messages[|received|])
    ensures Supply(old(sender.answers), |Frames(messages)|) ==> received == messages
  {
    hide Frame, Frames, ParseAll, Parse, Supply;
    var count;
    count, part := SendMessages(sender, messages);
    var receiver := new Backend([], sender.sent, []);
    FramesRoundTrip(messages[..count], part);
    assert sender.sent == Frames(messages[..count]) + part;
    received := ReceiveMessages(receiver, count, FRAME_LIMIT - 1);
    assert count == |messages| ==> messages[..count] == messages;
  }
}
