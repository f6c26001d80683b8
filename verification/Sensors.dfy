/** The sensor object of src/sensor.c: what it is set to, how it starts and how it is read. */
module Sensors {
  import opened Options

  /** The sensor types that `lothar_sensor_reset` tells apart. */
  datatype SensorType =
    | NoSensor | Switch | Lowspeed9V
    | ColorFull | ColorRed | ColorGreen | ColorBlue | ColorNone
    | LightActive | LightInactive
    | Unsupported(code: nat)

  /** The functions that `d_start` and `d_value` can stand for. */
  datatype Starter = StartTouch | StartColor | StartLight | StartUltrasound

  datatype Reader = ValueTouch | ValueColor | ValueColorFull | ValueLight | ValueUltrasound

  const COLOR_BLACK := 1
  const COLOR_WHITE := 6
  const MAX_RETRIES := 10

  const ERROR_TIMEOUT := 10
  const ERROR_SENSOR_NOT_AVAILABLE := 13
  const ERROR_CONNECTION_NOT_CONFIGURED := 0xE0

  predicate Supported(t: SensorType) {
    !t.NoSensor? && !t.Unsupported?
  }

  predicate IsColor(t: SensorType) {
    t.ColorFull? || t.ColorRed? || t.ColorGreen? || t.ColorBlue? || t.ColorNone?
  }

  /** The start function that belongs to a type. */
  function StarterOf(t: SensorType): Starter
    requires Supported(t)
  {
    if t.Switch? then StartTouch
    else if t.Lowspeed9V? then StartUltrasound
    else if IsColor(t) then StartColor
    else StartLight
  }

  /** The smallest and the largest value and the read function that belong to a type. */
  function ProfileOf(t: SensorType): (int, int, Reader)
    requires Supported(t)
  {
    match t
    case Switch => (0, 1, ValueTouch)
    case Lowspeed9V => (0, 255, ValueUltrasound)
    case ColorFull => (COLOR_BLACK, COLOR_WHITE, ValueColorFull)
    case LightActive => (0, 1023, ValueLight)
    case LightInactive => (0, 1023, ValueLight)
    case _ => (0, 1023, ValueColor)
  }

  /** What belongs to a type: the range of the values and the way to read them. */
  ghost predicate Suits(t: SensorType, min: int, max: int, reader: Reader) {
    && ((min, max) == (0, 1) <==> t == Switch)
    && ((min, max) == (0, 255) <==> t == Lowspeed9V)
    && ((min, max) == (1, 6) <==> t == ColorFull)
    && ((min, max) == (0, 1023)
        <==> t in {ColorRed, ColorGreen, ColorBlue, ColorNone, LightActive, LightInactive})
    && (reader == ValueTouch <==> t == Switch)
    && (reader == ValueUltrasound <==> t == Lowspeed9V)
    && (reader == ValueColorFull <==> t == ColorFull)
    && (reader == ValueColor <==> t in {ColorRed, ColorGreen, ColorBlue, ColorNone})
    && (reader == ValueLight <==> t in {LightActive, LightInactive})
  }

  /** The sensor modes that are set. */
  datatype Mode = RawMode | BooleanMode

  function ModeOf(t: SensorType): Mode {
    if t.Switch? then BooleanMode else RawMode
  }

  /** What the device is asked for, and the sleeps. */
  datatype Command =
    | SetInputMode(sensor: SensorType, mode: Mode)
    | Sleep(ms: nat)
    | GetInputValues
    | LsWrite // start a measurement
    | LsGetStatus
    | LsRead

  /** The command with which a reading begins. */
  function ReadCommand(reader: Reader): Command {
    if reader.ValueUltrasound? then LsGetStatus else GetInputValues
  }

  /** The commands of `k` readings that are not valid, each followed by a longer sleep. */
  function PollCommands(k: nat, reader: Reader): seq<Command> {
    if k == 0 then [] else PollCommands(k - 1, reader) + [ReadCommand(reader), Sleep(10 * k)]
  }

  /** They alternate, and the sleeps get longer by 10 each time. */
  lemma {:induction false} PollCommandsAre(k: nat, reader: Reader)
    ensures |PollCommands(k, reader)| == 2 * k
    ensures forall i :: 0 <= i < k ==>
      && PollCommands(k, reader)[2 * i] == (if reader == ValueUltrasound then LsGetStatus else GetInputValues)
      && PollCommands(k, reader)[2 * i + 1] == Sleep(10 * (i + 1))
  {
    if k > 0 {
      PollCommandsAre(k - 1, reader);
    }
  }

  /** 0 or a negative error. */
  type Status = x: int | x <= 0

  /** What a command or a sleep answers, and, for a reading, whether it is valid. */
  datatype Reply = Reply(status: Status, valid: bool, value: int)

  /** The status of a reply; when none is left the connection is broken. */
  function StatusAt(replies: seq<Reply>, at: nat): Status {
    if at < |replies| then replies[at].status else -1
  }

  /** Reply `at` exists and is no error. */
  ghost predicate Fine(replies: seq<Reply>, at: nat) {
    at < |replies| && replies[at].status == 0
  }

  /** The first `k` readings, and the sleep after each, succeed but bring nothing valid. */
  ghost predicate InvalidUpTo(replies: seq<Reply>, at: nat, k: nat) {
    forall i :: 0 <= i < k ==>
      Fine(replies, at + 2 * i) && !replies[at + 2 * i].valid && Fine(replies, at + 2 * i + 1)
  }

  /** Reading number `k` is the first valid one.  An ultrasound sensor delivers it in a second
      reply. */
  ghost predicate ValidAt(replies: seq<Reply>, at: nat, k: nat, reader: Reader) {
    && InvalidUpTo(replies, at, k)
    && Fine(replies, at + 2 * k) && replies[at + 2 * k].valid
    && (reader.ValueUltrasound? ==> Fine(replies, at + 2 * k + 1))
  }

  /** One of the first ten readings is valid and nothing failed before it. */
  ghost predicate SomeValid(replies: seq<Reply>, at: nat, reader: Reader) {
    exists k :: 0 <= k < MAX_RETRIES && ValidAt(replies, at, k, reader)
  }

  ghost function ValueOf(replies: seq<Reply>, at: nat, k: nat, reader: Reader): int
    requires ValidAt(replies, at, k, reader)
  {
    replies[at + 2 * k + if reader.ValueUltrasound? then 1 else 0].value
  }

  /** What up to ten readings bring: the first valid value, and the reply that comes after it. */
  ghost function Polled(replies: seq<Reply>, at: nat, reader: Reader): Option<(int, nat)> {
    if SomeValid(replies, at, reader) then
      var k :| 0 <= k < MAX_RETRIES && ValidAt(replies, at, k, reader);
      Some((ValueOf(replies, at, k, reader), at + 2 * k + if reader.ValueUltrasound? then 2 else 1))
    else None
  }

  lemma PolledAt(replies: seq<Reply>, at: nat, k: nat, reader: Reader)
    requires k < MAX_RETRIES && ValidAt(replies, at, k, reader)
    ensures Polled(replies, at, reader)
         == Some((ValueOf(replies, at, k, reader), at + 2 * k + if reader.ValueUltrasound? then 2 else 1))
  {
    assert SomeValid(replies, at, reader);
    forall i | 0 <= i < MAX_RETRIES && ValidAt(replies, at, i, reader) ensures i == k {
      FirstValidIs(replies, at, k, i, reader);
    }
  }

  /** What a call of `lothar_sensor_value` brings from an active sensor of this type: an ultrasound
      sensor is asked to measure first. */
  ghost function ActiveReading(replies: seq<Reply>, at: nat, t: SensorType): Option<(int, nat)>
    requires Supported(t)
  {
    if !t.Lowspeed9V? then Polled(replies, at, ProfileOf(t).2)
    else if Fine(replies, at) then Polled(replies, at + 1, ValueUltrasound)
    else None
  }

  /** Where the start of a sensor of this type ends when it succeeds: an ultrasound sensor sleeps
      and brings one reading, whose value is dropped. */
  ghost function Started(replies: seq<Reply>, at: nat, t: SensorType): Option<nat>
    requires Supported(t)
  {
    if !Fine(replies, at) then None
    else if !t.Lowspeed9V? then Some(at + 1)
    else if !Fine(replies, at + 1) then None
    else match ActiveReading(replies, at + 2, t)
         case None => None
         case Some((_, end)) => Some(end)
  }

  /** What a call of `lothar_sensor_value` brings from a stopped sensor: it starts and is read. */
  ghost function StoppedReading(replies: seq<Reply>, at: nat, t: SensorType): Option<(int, nat)>
    requires Supported(t)
  {
    match Started(replies, at, t)
    case None => None
    case Some(end) => ActiveReading(replies, end, t)
  }

  /** Ten invalid readings, each followed by a sleep, and a valid one after that. */
  ghost function LateReplies(value: int): seq<Reply> {
    seq(20, _ => Reply(0, false, 0)) + [Reply(0, true, value)]
  }

  /** The eleventh reading is valid, and yet a light sensor brings nothing. */
  lemma EleventhIsLost(value: int)
    ensures var replies := LateReplies(value);
      && ValidAt(replies, 0, 10, ValueLight)
      && ValueOf(replies, 0, 10, ValueLight) == value
      && ActiveReading(replies, 0, LightActive) == None
  {
    var replies := LateReplies(value);
    forall k | 0 <= k < MAX_RETRIES ensures !ValidAt(replies, 0, k, ValueLight) {
      assert !replies[2 * k].valid;
    }
  }

  /** How polling ends, `k` invalid readings with their sleeps having gone before: with the error of
      reading `k` or of the sleep after it, or with a valid reading.  The eleventh reading is made,
      but unless it fails the answer is a timeout.  `asked` is all that has been asked for. */
  ghost predicate PollEnds(replies: seq<Reply>, at: nat, k: nat, reader: Reader, status: int, asked: seq<Command>) {
    var read := PollCommands(k, reader) + [ReadCommand(reader)];
    var here, next := StatusAt(replies, at + 2 * k), StatusAt(replies, at + 2 * k + 1);
    && k <= 10 && InvalidUpTo(replies, at, k)
    && if here < 0 then status == here && asked == read
       else if replies[at + 2 * k].valid && reader.ValueUltrasound? then
         asked == read + [LsRead] && status == if k < 10 || next < 0 then next else -10
       else if replies[at + 2 * k].valid || k == 10 then
         asked == read && status == if k < 10 then 0 else -10
       else
         next < 0 && status == next && asked == read + [Sleep(10 * (k + 1))]
  }

  ghost predicate PollAnswers(replies: seq<Reply>, at: nat, reader: Reader, status: int, asked: seq<Command>) {
    exists k :: PollEnds(replies, at, k, reader, status, asked)
  }

  /** Only one of these ways is possible. */
  lemma PollEndsOnce(replies: seq<Reply>, at: nat, reader: Reader,
      k: nat, status: int, asked: seq<Command>, k': nat, status': int, asked': seq<Command>)
    requires PollEnds(replies, at, k, reader, status, asked)
    requires PollEnds(replies, at, k', reader, status', asked')
    ensures k == k' && status == status' && asked == asked'
  {
    if k < k' {
      assert false; // reading `k` is invalid, and the sleep after it does not fail
    } else if k' < k {
      assert false;
    }
  }

  /** How the start of an ultrasound sensor goes: its mode is set, it sleeps, and it is read once; it
      fails with the first of these that fails. */
  ghost predicate UltrasoundStart(replies: seq<Reply>, at: nat, status: int, asked: seq<Command>) {
    var mode, sleep, measure := StatusAt(replies, at), StatusAt(replies, at + 1), StatusAt(replies, at + 2);
    var all := [SetInputMode(Lowspeed9V, RawMode), Sleep(1000), LsWrite];
    if mode < 0 then status == mode && asked == all[..1]
    else if sleep < 0 then status == sleep && asked == all[..2]
    else if measure < 0 then status == measure && asked == all
    else all <= asked && PollAnswers(replies, at + 3, ValueUltrasound, status, asked[3..])
  }

  /** If reading `i` comes after invalid ones only and is valid or fails, no other reading is the
      first valid one. */
  lemma FirstValidIs(replies: seq<Reply>, at: nat, i: nat, k: nat, reader: Reader)
    requires InvalidUpTo(replies, at, i) && ValidAt(replies, at, k, reader)
    requires !Fine(replies, at + 2 * i) || replies[at + 2 * i].valid
    ensures k == i
  {
  }

  /** If reading `i` is invalid and the sleep after it fails, there is no first valid reading. */
  lemma NoneValid(replies: seq<Reply>, at: nat, i: nat, k: nat, reader: Reader)
    requires InvalidUpTo(replies, at, i)
    requires Fine(replies, at + 2 * i) && !replies[at + 2 * i].valid && !Fine(replies, at + 2 * i + 1)
    ensures !ValidAt(replies, at, k, reader)
  {
  }

  /** What a reading asks for. */
  ghost function ReadCommands(replies: seq<Reply>, at: nat, reader: Reader): seq<Command> {
    [ReadCommand(reader)]
    + if Fine(replies, at) && replies[at].valid && reader.ValueUltrasound? then [LsRead] else []
  }

  /** What a reading answers. */
  ghost function ReadStatus(replies: seq<Reply>, at: nat, reader: Reader): Status {
    if Fine(replies, at) && replies[at].valid && reader.ValueUltrasound? then StatusAt(replies, at + 1)
    else StatusAt(replies, at)
  }

  lemma EndsWithReading(replies: seq<Reply>, at: nat, i: nat, reader: Reader, status: int, asked: seq<Command>)
    requires i < 10 && InvalidUpTo(replies, at, i) && (!Fine(replies, at + 2 * i) || replies[at + 2 * i].valid)
    requires status == ReadStatus(replies, at + 2 * i, reader)
    requires asked == PollCommands(i, reader) + ReadCommands(replies, at + 2 * i, reader)
    ensures PollEnds(replies, at, i, reader, status, asked)
  {
    var read := PollCommands(i, reader) + [ReadCommand(reader)];
    assert read + [] == read;
    assert PollCommands(i, reader) + ([ReadCommand(reader)] + [LsRead]) == read + [LsRead];
  }

  lemma EndsWithSleep(replies: seq<Reply>, at: nat, i: nat, reader: Reader, status: int, asked: seq<Command>)
    requires i < 10 && InvalidUpTo(replies, at, i) && Fine(replies, at + 2 * i) && !replies[at + 2 * i].valid
    requires status == StatusAt(replies, at + 2 * i + 1) < 0
    requires asked == PollCommands(i, reader) + [ReadCommand(reader)] + [Sleep(10 * (i + 1))]
    ensures PollEnds(replies, at, i, reader, status, asked)
  {
  }

  lemma EndsWithEleventh(replies: seq<Reply>, at: nat, reader: Reader, status: int, asked: seq<Command>)
    requires InvalidUpTo(replies, at, 10)
    requires var read := ReadStatus(replies, at + 20, reader); status == if read != 0 then read else -10
    requires asked == PollCommands(10, reader) + ReadCommands(replies, at + 20, reader)
    ensures PollEnds(replies, at, 10, reader, status, asked)
  {
    var read := PollCommands(10, reader) + [ReadCommand(reader)];
    assert read + [] == read;
    assert PollCommands(10, reader) + ([ReadCommand(reader)] + [LsRead]) == read + [LsRead];
  }

  lemma NoPolls(reader: Reader)
    ensures PollCommands(0, reader) == []
  {
  }

  lemma OneMorePoll(replies: seq<Reply>, at: nat, i: nat, reader: Reader)
    requires Fine(replies, at + 2 * i) && !replies[at + 2 * i].valid
    ensures ReadCommands(replies, at + 2 * i, reader) == [ReadCommand(reader)]
    ensures PollCommands(i + 1, reader)
         == PollCommands(i, reader) + [ReadCommand(reader)] + [Sleep(10 * (i + 1))]
  {
  }

  /** A reading that fails or is valid settles what polling brings. */
  lemma ReadingDecides(replies: seq<Reply>, at: nat, i: nat, reader: Reader, status: int, value: int, end: nat)
    requires i < MAX_RETRIES && InvalidUpTo(replies, at, i)
    requires !Fine(replies, at + 2 * i) || replies[at + 2 * i].valid
    requires status == ReadStatus(replies, at + 2 * i, reader)
    requires status == 0 ==>
      var last := at + 2 * i + if reader.ValueUltrasound? then 1 else 0;
      last < |replies| && value == replies[last].value && end == last + 1
    ensures Polled(replies, at, reader) == if status == 0 then Some((value, end)) else None
  {
    if status == 0 {
      assert ValidAt(replies, at, i, reader);
      PolledAt(replies, at, i, reader);
    } else {
      forall k: nat ensures !ValidAt(replies, at, k, reader) {
        if ValidAt(replies, at, k, reader) {
          FirstValidIs(replies, at, i, k, reader);
        }
      }
    }
  }

  lemma SleepDecides(replies: seq<Reply>, at: nat, i: nat, reader: Reader)
    requires InvalidUpTo(replies, at, i)
    requires Fine(replies, at + 2 * i) && !replies[at + 2 * i].valid && !Fine(replies, at + 2 * i + 1)
    ensures Polled(replies, at, reader) == None
  {
    forall k: nat ensures !ValidAt(replies, at, k, reader) {
      NoneValid(replies, at, i, k, reader);
    }
  }

  lemma NothingPolled(replies: seq<Reply>, at: nat, reader: Reader)
    requires InvalidUpTo(replies, at, MAX_RETRIES)
    ensures Polled(replies, at, reader) == None
  {
    forall k: nat | k < MAX_RETRIES ensures !ValidAt(replies, at, k, reader) {
      assert !replies[at + 2 * k].valid;
    }
  }

  lemma StartedByReading(start: seq<Command>, before: seq<Command>, end: seq<Command>)
    requires before == start + [SetInputMode(Lowspeed9V, RawMode), Sleep(1000)] && before + [LsWrite] <= end
    ensures start <= end && [SetInputMode(Lowspeed9V, RawMode), Sleep(1000), LsWrite] <= end[|start|..]
    ensures end[|before| + 1..] == end[|start|..][3..]
    ensures end == before + [LsWrite] ==>
      end[|start|..] == [SetInputMode(Lowspeed9V, RawMode), Sleep(1000), LsWrite]
  {
    assert end[..|before| + 1] == before + [LsWrite];
  }

  class Sensor {
    const replies: seq<Reply> // when none is left the connection is broken
    var next: nat             // the first one that is still to come
    var commands: seq<Command>

    var dType: SensorType
    var dLast: SensorType
    var dMin: int
    var dMax: int
    var dStart: Starter
    var dValue: Reader

    /** What every sequence of calls keeps: the start function belongs to the type last asked for,
        an active sensor has the bounds and the read function of its own type, and a stopped one
        has bounds 0. */
    ghost predicate Valid()
      reads this
    {
      && Supported(dLast) && dStart == StarterOf(dLast)
      && (dType == NoSensor || (Supported(dType) && (dMin, dMax, dValue) == ProfileOf(dType)))
      && (dType == NoSensor ==> dMin == dMax == 0)
    }

    constructor (replies: seq<Reply>)
      ensures this.replies == replies && next == 0 && commands == []
    {
      this.replies, next, commands := replies, 0, [];
    }

    /** `lothar_sensor_open`: a sensor is handed out only if it has started. */
    method Open(t: SensorType) returns (ok: bool)
      modifies this
      ensures ok ==> Valid() && dType == dLast == t
      ensures ok <==> Supported(t) && Started(replies, old(next), t).Some?
      ensures ok ==> Suits(t, dMin, dMax, dValue)
    {
      var status := Reset(t);
      ok := status == 0;
    }

    /** The answer to the next command. */
    method Ask(command: Command) returns (r: Reply)
      modifies `next, `commands
      ensures commands == old(commands) + [command] && r.status == StatusAt(replies, old(next))
      ensures if old(next) < |replies| then r == replies[old(next)] && next == old(next) + 1
              else r.status < 0 && next == old(next)
    {
      commands := commands + [command];
      if next >= |replies| {
        return Reply(-1, false, 0);
      }
      r := replies[next];
      next := next + 1;
    }

    /** A type that is not supported changes nothing; any other becomes the type last asked for,
        whether or not the device then obeys. */
    method Reset(t: SensorType) returns (status: int)
      modifies this
      ensures t.NoSensor? || t.Unsupported? ==>
        status == -13 && next == old(next) && commands == old(commands) && dType == old(dType) && dLast == old(dLast)
        && dMin == old(dMin) && dMax == old(dMax) && dStart == old(dStart) && dValue == old(dValue)
      ensures !(t.NoSensor? || t.Unsupported?) ==> Supported(t) && status <= 0 && dLast == t && dStart == StarterOf(t)
      ensures Supported(t) ==>
        dType == t || (dType == old(dType) && dMin == old(dMin) && dMax == old(dMax) && dValue == old(dValue))
      ensures Supported(t) && dType == t && (status == 0 || old(dType) != t) ==> (dMin, dMax, dValue) == ProfileOf(t)
      ensures Supported(t) && status == 0 ==> dType == t
      ensures Supported(t) ==> (status == 0 <==> Started(replies, old(next), t).Some?)
      ensures Supported(t) && dType == t && (status == 0 || old(dType) != t) ==> Suits(t, dMin, dMax, dValue)
      ensures Supported(t) ==>
        && old(commands) + [SetInputMode(t, if t == Switch then BooleanMode else RawMode)] <= commands
        && (StatusAt(replies, old(next)) < 0 ==> status == StatusAt(replies, old(next)))
        && (t != Lowspeed9V ==> status == StatusAt(replies, old(next)) && |commands| == |old(commands)| + 1)
        && (t == Lowspeed9V ==> UltrasoundStart(replies, old(next), status, commands[|old(commands)|..]))
      ensures old(Valid()) ==> Valid()
    {
      if !Supported(t) {
        return -ERROR_SENSOR_NOT_AVAILABLE;
      }
      dLast := t;
      dStart := StarterOf(t);
      status := Start();
    }

    method Stop() returns (status: int)
      requires Valid()
      modifies this
      ensures Valid() && dType == NoSensor && dLast == old(dLast)
      ensures status == StatusAt(replies, old(next))
      ensures commands == old(commands) + [SetInputMode(NoSensor, RawMode)]
    {
      dType, dMin, dMax := NoSensor, 0, 0;
      var r := Ask(SetInputMode(NoSensor, RawMode));
      status := r.status;
    }

    /** Either the sensor is now set to the type last asked for, with all that belongs to it, or it
        failed and is set as it was; and it succeeds exactly when the replies say so. */
    twostate predicate StartedOrUntouched(status: int)
      reads this
    {
      && status <= 0 && dLast == old(dLast) && dStart == old(dStart) && old(next) <= next
      && Supported(dLast)
      && (if status == 0 then Some(next) else None) == Started(replies, old(next), dLast)
      && old(commands) + [SetInputMode(dLast, ModeOf(dLast))] <= commands
      && (StatusAt(replies, old(next)) < 0 || dLast != Lowspeed9V ==>
            status == StatusAt(replies, old(next)) && |commands| == |old(commands)| + 1)
      && (dLast == Lowspeed9V ==> UltrasoundStart(replies, old(next), status, commands[|old(commands)|..]))
      && (dType == dLast && (status == 0 || old(dType) != dLast) ==> Suits(dLast, dMin, dMax, dValue))
      && ((dType == dLast && (dMin, dMax, dValue) == ProfileOf(dLast))
          || (status < 0 && dType == old(dType) && dMin == old(dMin) && dMax == old(dMax) && dValue == old(dValue)))
    }

    /** `sensor->d_start(sensor)`. */
    method Start() returns (status: int)
      requires Supported(dLast) && dStart == StarterOf(dLast)
      modifies this
      ensures StartedOrUntouched(status)
      decreases 1, 1
    {
      match dStart
      case StartTouch => status := StartSwitch();
      case StartColor => status := StartColored();
      case StartLight => status := StartLit();
      case StartUltrasound => status := StartUltrasonic();
    }

    method StartSwitch() returns (status: int)
      requires dLast == Switch
      modifies this
      ensures StartedOrUntouched(status)
    {
      var r := Ask(SetInputMode(dLast, BooleanMode));
      if r.status < 0 {
        return r.status;
      }
      dType, dMin, dMax, dValue := dLast, 0, 1, ValueTouch;
      status := 0;
    }

    method StartColored() returns (status: int)
      requires IsColor(dLast)
      modifies this
      ensures StartedOrUntouched(status)
    {
      var r := Ask(SetInputMode(dLast, RawMode));
      if r.status < 0 {
        return r.status;
      }
      dType := dLast;
      if dType == ColorFull {
        dMin, dMax, dValue := COLOR_BLACK, COLOR_WHITE, ValueColorFull;
      } else {
        dMin, dMax, dValue := 0, 1023, ValueColor;
      }
      status := 0;
    }

    method StartLit() returns (status: int)
      requires dLast == LightActive || dLast == LightInactive
      modifies this
      ensures StartedOrUntouched(status)
    {
      var r := Ask(SetInputMode(dLast, RawMode));
      if r.status < 0 {
        return r.status;
      }
      dType, dMin, dMax, dValue := dLast, 0, 1023, ValueLight;
      status := 0;
    }

    /** The type is set before the first reading, so that reading cannot start the sensor again:
        the recursion through `Value` ends there.  No status is positive, so the retry loop returns
        in its first round. */
    method StartUltrasonic() returns (status: int)
      requires dLast == Lowspeed9V && dStart == StartUltrasound
      modifies this
      ensures StartedOrUntouched(status)
      decreases 1, 0
    {
      var r := Ask(SetInputMode(Lowspeed9V, RawMode));
      if r.status < 0 {
        return r.status;
      }
      dType, dMin, dMax, dValue := dLast, 0, 255, ValueUltrasound;
      r := Ask(Sleep(1000)); // let the device power up
      if r.status < 0 {
        return r.status;
      }
      var value: int;
      for i := 0 to MAX_RETRIES
        invariant i == 0 && dLast == old(dLast) && dStart == old(dStart)
        invariant next == old(next) + 2 && Fine(replies, old(next)) && Fine(replies, old(next) + 1)
        invariant dType == Lowspeed9V && (dMin, dMax, dValue) == ProfileOf(Lowspeed9V)
        invariant commands == old(commands) + [SetInputMode(Lowspeed9V, RawMode), Sleep(1000)]
      {
        ghost var before := commands;
        status, value := Value();
        StartedByReading(old(commands), before, commands);
        if status != ERROR_CONNECTION_NOT_CONFIGURED {
          return status;
        }
        assert false;
      }
      assert false;
    }

    /** `lothar_sensor_value`.  A stopped sensor is started again, with the type last asked for; then
        the first valid one of ten readings is the answer, if nothing failed before it. */
    method Value() returns (status: int, value: int)
      requires Valid()
      modifies this
      ensures Valid() && status <= 0 && dLast == old(dLast) && old(next) <= next
      ensures dType == old(dType) || (old(dType) == NoSensor && dType == dLast)
      ensures status == 0 ==> dType != NoSensor
      ensures old(dType) != NoSensor ==> dMin == old(dMin) && dMax == old(dMax) && dValue == old(dValue)
      ensures (if status == 0 then Some((value, next)) else None)
           == if old(dType) == NoSensor then StoppedReading(replies, old(next), dLast)
              else ActiveReading(replies, old(next), old(dType))
      // how it ends in every case, and all that has been asked for
      ensures old(commands) <= commands
      ensures old(dType) != NoSensor && old(dType) != Lowspeed9V ==>
        PollAnswers(replies, old(next), dValue, status, commands[|old(commands)|..])
      ensures old(dType) == Lowspeed9V ==>
        && old(commands) + [LsWrite] <= commands
        && if StatusAt(replies, old(next)) < 0 then
             status == StatusAt(replies, old(next)) && commands == old(commands) + [LsWrite]
           else
             PollAnswers(replies, old(next) + 1, dValue, status, commands[|old(commands)| + 1..])
      ensures old(dType) == NoSensor ==> old(commands) + [SetInputMode(dLast, ModeOf(dLast))] <= commands
      ensures old(dType) == NoSensor && StatusAt(replies, old(next)) < 0 ==> status == StatusAt(replies, old(next))
      decreases if dType == NoSensor then 2 else 0
    {
      hide Polled;
      value := 0;
      if dType == NoSensor {
        status := Start();
        if status != 0 {
          return;
        }
      }
      if dType == Lowspeed9V {
        var r := Ask(LsWrite);
        if r.status != 0 {
          return r.status, value;
        }
      }
      status, value := Poll();
    }

    /** One reading through `d_value`. */
    method Read() returns (status: Status, valid: bool, value: int)
      modifies `next, `commands
      ensures commands == old(commands) + ReadCommands(replies, old(next), dValue)
      ensures status == ReadStatus(replies, old(next), dValue)
      ensures old(next) >= |replies| ==> status < 0 && next == old(next)
      ensures old(next) < |replies| ==>
        var r := replies[old(next)];
        if r.status < 0 || !r.valid || !dValue.ValueUltrasound? then
          status == r.status && valid == r.valid && value == r.value && next == old(next) + 1
        else
          && valid
          && (status == 0 <==> Fine(replies, old(next) + 1))
          && (status == 0 ==> value == replies[old(next) + 1].value && next == old(next) + 2)
          && next > old(next)
    {
      var r := Ask(ReadCommand(dValue));
      status, valid, value := r.status, r.valid, r.value;
      if status == 0 && dValue == ValueUltrasound && valid {
        r := Ask(LsRead);
        status, value := r.status, r.value;
      }
    }

    /** Up to ten readings with sleeps in between; an eleventh one is made, but even when it is valid
        the answer is a timeout. */
    method Poll() returns (status: Status, value: int)
      modifies `next, `commands
      ensures old(next) <= next && old(commands) <= commands
      ensures (if status == 0 then Some((value, next)) else None) == Polled(replies, old(next), dValue)
      ensures PollAnswers(replies, old(next), dValue, status, commands[|old(commands)|..])
    {
      hide Polled, PollEnds, PollCommands, ReadCommands, ReadStatus;
      NoPolls(dValue);
      var valid: bool;
      ghost var at, before := next, commands;
      for i := 0 to MAX_RETRIES
        invariant next == at + 2 * i && InvalidUpTo(replies, at, i)
        invariant commands == before + PollCommands(i, dValue)
      {
        status, valid, value := Read();
        if status < 0 || valid {
          EndsWithReading(replies, at, i, dValue, status, commands[|before|..]);
          ReadingDecides(replies, at, i, dValue, status, value, next);
          return;
        }
        OneMorePoll(replies, at, i, dValue);
        var r := Ask(Sleep(10 * (i + 1)));
        assert commands == before + (PollCommands(i, dValue) + [ReadCommand(dValue)] + [Sleep(10 * (i + 1))]);
        if r.status < 0 {
          EndsWithSleep(replies, at, i, dValue, r.status, commands[|before|..]);
          SleepDecides(replies, at, i, dValue);
          return r.status, value;
        }
      }
      NothingPolled(replies, at, dValue);
      status, valid, value := Read();
      EndsWithEleventh(replies, at, dValue, if status != 0 then status else -10, commands[|before|..]);
      if status != 0 {
        return;
      }
      status := -ERROR_TIMEOUT;
    }
  }
}
