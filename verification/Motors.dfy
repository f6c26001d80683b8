/** The blocking turn of src/motor.c. */
module Motors {

  const INT32_MIN: int := -0x8000_0000
  const INT32_MAX: int := 0x7FFF_FFFF

  type Int32 = x: int | -0x8000_0000 <= x <= 0x7FFF_FFFF
  type Uint32 = x: int | 0 <= x < 0x1_0000_0000
  type Int8 = x: int | -0x80 <= x < 0x80

  function Wrap32(x: int): Int32 {
    (x + 0x8000_0000) % 0x1_0000_0000 - 0x8000_0000
  }

  /** `target_degrees`, an `int32_t` that a `uint32_t` is added to or taken from. */
  function Target(power: Int8, start: Int32, distance: Uint32): Int32 {
    if power > 0 then Wrap32(start + distance) else Wrap32(start - distance)
  }

  /** The loop's stop test. */
  predicate Reached(power: Int8, target: Int32, reading: Int32) {
    (power > 0 && reading >= target) || (power < 0 && reading <= target)
  }

  /** The reading has gone at least the distance in the direction of the power. */
  predicate Travelled(power: Int8, start: Int32, distance: Uint32, reading: Int32) {
    if power > 0 then reading - start >= distance else start - reading >= distance
  }

  /** The target would lie outside the range of the rotation counter. */
  predicate Overflows(power: Int8, start: Int32, distance: Uint32) {
    if power > 0 then start + distance > INT32_MAX else start - distance < INT32_MIN
  }

  /** The stop test means that the distance has been travelled exactly when the target does not
      overflow; and then it means nothing else. */
  lemma StopTestSoundIff(power: Int8, start: Int32, distance: Uint32)
    requires power != 0
    ensures (forall reading: Int32 :: Reached(power, Target(power, start, distance), reading)
                                      ==> Travelled(power, start, distance, reading))
            <==> !Overflows(power, start, distance)
    ensures !Overflows(power, start, distance) ==>
              forall reading: Int32 :: Travelled(power, start, distance, reading)
                                       ==> Reached(power, Target(power, start, distance), reading)
  {
    var target := Target(power, start, distance);
    var exact := if power > 0 then start + distance else start - distance;
    WrapOnce(exact);
    if Overflows(power, start, distance) {
      assert Reached(power, target, target) && !Travelled(power, start, distance, target);
    }
  }

  /** With a target that overflows the turn can end before the motor has moved. */
  lemma StopTestCanMislead()
    ensures var start := INT32_MAX - 10;
      && Overflows(100, start, 360)
      && Reached(100, Target(100, start, 360), start) && !Travelled(100, start, 360, start)
  {
    WrapOnce(INT32_MAX - 10 + 360);
  }

  lemma WrapOnce(x: int)
    requires INT32_MIN - 0x1_0000_0000 < x < INT32_MAX + 0x1_0000_0000
    ensures Wrap32(x) == if x > INT32_MAX then x - 0x1_0000_0000
                         else if x < INT32_MIN then x + 0x1_0000_0000 else x
  {
  }

  /** The least time that `n` sleeps take. */
  function Slept(n: nat, poll: nat): nat {
    n * poll
  }

  lemma SleptOnce(n: nat, poll: nat)
    ensures Slept(n + 1, poll) == Slept(n, poll) + poll
  {
  }

  /** The timeout divided by the polling interval, rounded up. */
  function MostPolls(poll: nat, timeout: nat): nat
    requires poll > 0
  {
    (timeout + poll - 1) / poll
  }

  /** If n - 1 sleeps take less than the timeout, n is at most the timeout divided by the polling
      interval, rounded up. */
  lemma SleepsWithin(n: nat, poll: nat, timeout: nat)
    requires poll > 0 && Slept(n, poll) < timeout + poll
    ensures n <= MostPolls(poll, timeout)
  {
    var most := MostPolls(poll, timeout);
    if n > most {
      MoreSleeps(most + 1, n, poll);
    }
  }

  lemma MoreSleeps(m: nat, n: nat, poll: nat)
    requires m <= n
    ensures m * poll <= n * poll
  {
  }

  datatype Command = Turn(power: int, degrees: Uint32) | Brake

  /** What the brick or the clock answers: a status, negative for a failure, a rotation reading
      where one is asked for, and the time it took. */
  datatype Reply = Reply(status: int, degrees: Int32, took: nat)

  /** Which reply holds the reading number `i`: the turn command takes one reply, and so does
      every sleep. */
  function ReplyOf(i: nat, poll: nat): nat {
    if i == 0 then 0 else if poll > 0 then 2 * i else i + 1
  }

  ghost predicate FromReplies(readings: seq<Int32>, replies: seq<Reply>, poll: nat) {
    forall i :: 0 <= i < |readings| ==>
      ReplyOf(i, poll) < |replies| && readings[i] == replies[ReplyOf(i, poll)].degrees
  }

  /** None of the readings after the first has reached the target. */
  ghost predicate UnderWay(power: Int8, target: Int32, readings: seq<Int32>) {
    forall i :: 0 < i < |readings| ==> !Reached(power, target, readings[i])
  }

  /** How a blocking turn ends. */
  datatype Ending = Refused | NoPower | Arrived | TimedOut | Failed

  const ERROR_TIMEOUT := 10

  /** `CLAMP(power, -100, 100)`. */
  function Clamp(power: int): (r: int)
    ensures -100 <= r <= 100 && (-100 <= power <= 100 ==> r == power)
    ensures (power < -100 ==> r == -100) && (power > 100 ==> r == 100)
  {
    if power < -100 then -100 else if power > 100 then 100 else power
  }

  /** The status of a reply; when none is left the connection is broken. */
  function StatusAt(replies: seq<Reply>, at: nat): int {
    if at < |replies| then replies[at].status else -1
  }

  /** The time that the first `n` replies took. */
  ghost function Spent(replies: seq<Reply>, n: nat): nat
    requires n <= |replies|
  {
    if n == 0 then 0 else Spent(replies, n - 1) + replies[n - 1].took
  }

  /** After `n` readings in the loop the time is not over yet. */
  ghost predicate TimeLeft(replies: seq<Reply>, poll: nat, timeout: nat, n: nat)
    requires ReplyOf(n + 1, poll) <= |replies|
  {
    timeout == 0 || Spent(replies, ReplyOf(n + 1, poll)) + Slept(n, poll) < timeout
  }

  /** Round `i` of the loop is gone through to its end: there is time left, the reading succeeds and has
      not reached the target, and so does the sleep, if there is one. */
  ghost predicate GoesOn(replies: seq<Reply>, power: Int8, target: Int32, poll: nat, timeout: nat, i: nat) {
    var at := ReplyOf(i + 1, poll);
    && at < |replies| && TimeLeft(replies, poll, timeout, i)
    && replies[at].status >= 0 && !Reached(power, target, replies[at].degrees)
    && (poll > 0 ==> StatusAt(replies, at + 1) >= 0)
  }

  /** The starting reading and those of the first `n` rounds. */
  ghost function Readings(replies: seq<Reply>, poll: nat, n: nat): (readings: seq<Int32>)
    requires ReplyOf(n, poll) < |replies|
    ensures |readings| == n + 1
  {
    seq(n + 1, i requires 0 <= i <= n => assert ReplyOf(i, poll) <= ReplyOf(n, poll); replies[ReplyOf(i, poll)].degrees)
  }

  /** How the loop ends in round `n`: out of time, with the error of the reading or of the sleep after
      it, or with a reading that has reached the target, and then with what the brake command
      answers. */
  ghost predicate LoopEnds(replies: seq<Reply>, power: Int8, target: Int32, poll: nat, timeout: nat, n: nat,
      status: int, ending: Ending, readings: seq<Int32>)
  {
    var at := ReplyOf(n + 1, poll);
    && (forall i :: 0 <= i < n ==> GoesOn(replies, power, target, poll, timeout, i))
    && at <= |replies|
    && if !TimeLeft(replies, poll, timeout, n) then
         ending == TimedOut && status == -10 && readings == Readings(replies, poll, n)
       else if StatusAt(replies, at) < 0 then
         ending == Failed && status == StatusAt(replies, at) && readings == Readings(replies, poll, n)
       else if Reached(power, target, replies[at].degrees) then
         ending == Arrived && status == StatusAt(replies, at + 1) && readings == Readings(replies, poll, n + 1)
       else
         && poll > 0 && StatusAt(replies, at + 1) < 0
         && ending == Failed && status == StatusAt(replies, at + 1) && readings == Readings(replies, poll, n + 1)
  }

  /** How a blocking turn ends, `n` rounds of its loop having been gone through. */
  ghost predicate TurnEnds(replies: seq<Reply>, power: Int8, degrees: Uint32, margin: Uint32, poll: nat, timeout: nat,
      n: nat, status: int, ending: Ending, readings: seq<Int32>)
  {
    if margin >= degrees then ending == Refused && status == 0 && readings == []
    else if StatusAt(replies, 0) < 0 then
      ending == Failed && status == StatusAt(replies, 0) && readings == []
    else if power == 0 then
      ending == NoPower && status == 0 && readings == [replies[0].degrees]
    else if StatusAt(replies, 1) < 0 then
      ending == Failed && status == StatusAt(replies, 1) && readings == [replies[0].degrees]
    else
      LoopEnds(replies, power, Target(power, replies[0].degrees, degrees - margin), poll, timeout, n,
               status, ending, readings)
  }

  /** The commands sent: none before the starting reading and the test of the power, then the turn, and
      the brake when the loop is over. */
  ghost function Sent(replies: seq<Reply>, power: Int8, degrees: Uint32, margin: Uint32, ending: Ending): seq<Command> {
    if margin >= degrees || StatusAt(replies, 0) < 0 || power == 0 then []
    else
      var clamped := if power < -100 then -100 else if power > 100 then 100 else power;
      [Turn(clamped, degrees)] + if ending.Arrived? || ending.TimedOut? then [Brake] else []
  }

  /** The round in which the loop ends is not gone through. */
  lemma EndedBefore(replies: seq<Reply>, power: Int8, target: Int32, poll: nat, timeout: nat, n: nat,
      status: int, ending: Ending, readings: seq<Int32>, n': nat)
    requires LoopEnds(replies, power, target, poll, timeout, n, status, ending, readings) && n < n'
    ensures !forall i :: 0 <= i < n' ==> GoesOn(replies, power, target, poll, timeout, i)
  {
    hide Reached, TimeLeft, Readings;
    assert !GoesOn(replies, power, target, poll, timeout, n);
  }

  /** Only one such end is possible. */
  lemma LoopEndsOnce(replies: seq<Reply>, power: Int8, target: Int32, poll: nat, timeout: nat,
      n: nat, status: int, ending: Ending, readings: seq<Int32>,
      n': nat, status': int, ending': Ending, readings': seq<Int32>)
    requires LoopEnds(replies, power, target, poll, timeout, n, status, ending, readings)
    requires LoopEnds(replies, power, target, poll, timeout, n', status', ending', readings')
    ensures n == n' && status == status' && ending == ending' && readings == readings'
  {
    hide Reached, TimeLeft, Readings;
    if n < n' {
      EndedBefore(replies, power, target, poll, timeout, n, status, ending, readings, n');
    } else if n' < n {
      EndedBefore(replies, power, target, poll, timeout, n', status', ending', readings', n);
    }
  }

  /** The end of the loop in terms of the readings: none but the last can have reached the target, and
      the turn has arrived exactly when that one has. */
  lemma LoopMeaning(replies: seq<Reply>, power: Int8, target: Int32, poll: nat, timeout: nat, n: nat,
      status: int, ending: Ending, readings: seq<Int32>)
    requires LoopEnds(replies, power, target, poll, timeout, n, status, ending, readings)
    requires replies != []
    ensures n + 1 <= |readings| <= n + 2 && readings[0] == replies[0].degrees
    ensures FromReplies(readings, replies, poll)
    ensures UnderWay(power, target, readings[..|readings| - 1])
    ensures |readings| > 1 ==> (ending == Arrived <==> Reached(power, target, readings[|readings| - 1]))
    ensures ending == Arrived ==> |readings| > 1
    ensures ending == Failed ==> exists i: nat :: i <= |replies| && status == StatusAt(replies, i) < 0
  {
    hide Reached, TimeLeft, Spent;
    forall i | 0 < i < |readings| - 1 ensures !Reached(power, target, readings[i]) {
      assert GoesOn(replies, power, target, poll, timeout, i - 1);
    }
    if |readings| > 1 && n > 0 {
      assert GoesOn(replies, power, target, poll, timeout, n - 1);
    }
  }

  lemma LoopPolls(replies: seq<Reply>, power: Int8, target: Int32, poll: nat, timeout: nat, n: nat,
      status: int, ending: Ending, readings: seq<Int32>)
    requires LoopEnds(replies, power, target, poll, timeout, n, status, ending, readings)
    requires poll > 0 && timeout > 0
    ensures |readings| - 1 <= MostPolls(poll, timeout)
  {
    hide Reached, Slept, MostPolls, Spent;
    if TimeLeft(replies, poll, timeout, n) {
      SleptOnce(n, poll);
      SleepsWithin(n + 1, poll, timeout);
    } else if n > 0 {
      assert GoesOn(replies, power, target, poll, timeout, n - 1);
      SleptOnce(n - 1, poll);
      SleepsWithin(n, poll, timeout);
    }
  }

  lemma SpentTwo(replies: seq<Reply>, poll: nat)
    ensures |replies| >= 2 ==>
      Spent(replies, ReplyOf(1, poll)) + Slept(0, poll) == replies[0].took + replies[1].took
  {
    if |replies| >= 2 {
      assert Spent(replies, 2) == Spent(replies, 1) + replies[1].took;
    }
  }

  lemma OneMoreRound(replies: seq<Reply>, poll: nat, n: nat)
    ensures var at := ReplyOf(n + 1, poll);
      && ReplyOf(n + 2, poll) == (if poll > 0 then at + 2 else at + 1)
      && Slept(n + 1, poll) == Slept(n, poll) + poll
      && (at < |replies| ==> Spent(replies, at + 1) == Spent(replies, at) + replies[at].took)
      && (at + 1 < |replies| ==> Spent(replies, at + 2) == Spent(replies, at + 1) + replies[at + 1].took)
  {
    SleptOnce(n, poll);
  }

  /** Only one end of a turn is possible. */
  lemma TurnEndsOnce(replies: seq<Reply>, power: Int8, degrees: Uint32, margin: Uint32, poll: nat, timeout: nat,
      n: nat, status: int, ending: Ending, readings: seq<Int32>,
      n': nat, status': int, ending': Ending, readings': seq<Int32>)
    requires TurnEnds(replies, power, degrees, margin, poll, timeout, n, status, ending, readings)
    requires TurnEnds(replies, power, degrees, margin, poll, timeout, n', status', ending', readings')
    ensures status == status' && ending == ending' && readings == readings'
  {
    hide LoopEnds, Target;
    if margin < degrees && StatusAt(replies, 0) >= 0 && power != 0 && StatusAt(replies, 1) >= 0 {
      LoopEndsOnce(replies, power, Target(power, replies[0].degrees, degrees - margin), poll, timeout,
                   n, status, ending, readings, n', status', ending', readings');
    }
  }

  /** The end of a turn in terms of the readings. */
  lemma TurnMeaning(replies: seq<Reply>, power: Int8, degrees: Uint32, margin: Uint32, poll: nat, timeout: nat,
      n: nat, status: int, ending: Ending, readings: seq<Int32>)
    requires TurnEnds(replies, power, degrees, margin, poll, timeout, n, status, ending, readings)
    ensures ending == Refused <==> margin >= degrees
    ensures ending == NoPower <==> margin < degrees && power == 0 && StatusAt(replies, 0) >= 0
    ensures ending == Failed ==> exists i: nat :: i <= |replies| && status == StatusAt(replies, i) < 0
    ensures ending == Failed ==> power != 0 || readings == []
    ensures ending == Failed ==> (readings == [] <==> StatusAt(replies, 0) < 0)
    ensures ending == TimedOut ==> status == -10
    ensures FromReplies(readings, replies, poll)
    ensures |readings| > 1 ==>
      && margin < degrees
      && var target := Target(power, readings[0], degrees - margin);
         && UnderWay(power, target, readings[..|readings| - 1])
         && (ending == Arrived <==> Reached(power, target, readings[|readings| - 1]))
    ensures ending == Arrived ==> |readings| > 1
    ensures ending == Arrived && !Overflows(power, readings[0], degrees - margin) ==>
      Travelled(power, readings[0], degrees - margin, readings[|readings| - 1])
    ensures poll > 0 && timeout > 0 && |readings| > 0 ==> |readings| - 1 <= MostPolls(poll, timeout)
  {
    hide Target, Overflows, Travelled, Slept, LoopEnds, Reached, UnderWay;
    if margin < degrees && StatusAt(replies, 0) >= 0 && power != 0 && StatusAt(replies, 1) >= 0 {
      var target := Target(power, replies[0].degrees, degrees - margin);
      LoopMeaning(replies, power, target, poll, timeout, n, status, ending, readings);
      if poll > 0 && timeout > 0 {
        LoopPolls(replies, power, target, poll, timeout, n, status, ending, readings);
      }
      StopTestSoundIff(power, replies[0].degrees, degrees - margin);
      LoopEndings(replies, power, target, poll, timeout, n, status, ending, readings);
    }
  }

  lemma LoopEndings(replies: seq<Reply>, power: Int8, target: Int32, poll: nat, timeout: nat, n: nat,
      status: int, ending: Ending, readings: seq<Int32>)
    requires LoopEnds(replies, power, target, poll, timeout, n, status, ending, readings)
    ensures ending != Refused && ending != NoPower && (ending == TimedOut ==> status == -10) && readings != []
  {
  }

  class Motor {
    const replies: seq<Reply> // when none is left the connection is broken
    var next: nat             // the first one that is still to come
    var clock: nat
    var commands: seq<Command>

    constructor (replies: seq<Reply>)
      ensures this.replies == replies && next == 0 && clock == 0 && commands == []
    {
      this.replies, next, clock, commands := replies, 0, 0, [];
    }

    method NextReply(atLeast: nat) returns (r: Reply)
      modifies `next, `clock
      ensures if old(next) < |replies| then r == replies[old(next)] && next == old(next) + 1
              else r.status < 0 && next == old(next)
      ensures r.status == StatusAt(replies, old(next))
      ensures clock == old(clock) + (if old(next) < |replies| then r.took else 0) + if r.status < 0 then 0 else atLeast
    {
      if next >= |replies| {
        return Reply(-1, 0, 0);
      }
      r := replies[next];
      next := next + 1;
      clock := clock + r.took + if r.status < 0 then 0 else atLeast;
    }

    method Send(command: Command) returns (status: int)
      modifies this
      ensures commands == old(commands) + [command] && clock >= old(clock)
      ensures status == StatusAt(replies, old(next))
      ensures next == if old(next) < |replies| then old(next) + 1 else old(next)
      ensures clock == old(clock) + if old(next) < |replies| then replies[old(next)].took else 0
    {
      var r := NextReply(0);
      commands := commands + [command];
      status := r.status;
    }

    /** `lothar_motor_turn_block`.  `readings` are the rotation readings in order, the starting one
        first, and `rounds` is how often the loop has been gone through. */
    method RunTurn(power: Int8, degrees: Uint32, margin: Uint32, poll: nat, timeout: nat)
        returns (status: int, ghost ending: Ending, ghost readings: seq<Int32>, ghost rounds: nat)
      requires next <= |replies|
      modifies this
      ensures var ahead := replies[old(next)..];
        && TurnEnds(ahead, power, degrees, margin, poll, timeout, rounds, status, ending, readings)
        && commands == old(commands) + Sent(ahead, power, degrees, margin, ending)
      ensures ending == Refused ==> next == old(next)
      ensures ending == TimedOut ==> timeout > 0 && clock >= old(clock) + timeout
    {
      hide Target, Slept, Spent, Readings;
      ghost var ahead := replies[next..];
      rounds := 0;
      var timer := clock;
      if margin >= degrees {
        return 0, Refused, [], rounds;
      }
      var first := NextReply(0);
      if first.status < 0 {
        return first.status, Failed, [], rounds;
      }
      if power == 0 {
        return 0, NoPower, [first.degrees], rounds;
      }
      var target := Target(power, first.degrees, degrees - margin);
      status := Send(Turn(Clamp(power), degrees));
      if status < 0 {
        return status, Failed, [first.degrees], rounds;
      }
      SpentTwo(ahead, poll);
      while timeout == 0 || clock - timer < timeout
        invariant next == old(next) + ReplyOf(rounds + 1, poll) <= |replies|
        invariant timer == old(clock) && clock - timer == Spent(ahead, ReplyOf(rounds + 1, poll)) + Slept(rounds, poll)
        invariant forall i :: 0 <= i < rounds ==> GoesOn(ahead, power, target, poll, timeout, i)
        invariant commands == old(commands) + [Turn(Clamp(power), degrees)]
        decreases |replies| - next
      {
        var current := NextReply(0);
        if current.status < 0 {
          return current.status, Failed, Readings(ahead, poll, rounds), rounds;
        }
        if (power > 0 && current.degrees >= target) || (power < 0 && current.degrees <= target) {
          status := Send(Brake);
          return status, Arrived, Readings(ahead, poll, rounds + 1), rounds;
        }
        if poll > 0 {
          var sleep := NextReply(poll);
          if sleep.status < 0 {
            return sleep.status, Failed, Readings(ahead, poll, rounds + 1), rounds;
          }
        }
        OneMoreRound(ahead, poll, rounds);
        rounds := rounds + 1;
      }
      var ignored := Send(Brake);
      return -ERROR_TIMEOUT, TimedOut, Readings(ahead, poll, rounds), rounds;
    }

    /** The same call, with what its end means. */
    method TurnBlock(power: Int8, degrees: Uint32, margin: Uint32, poll: nat, timeout: nat)
        returns (status: int, ghost ending: Ending, ghost readings: seq<Int32>, ghost rounds: nat)
      requires next <= |replies|
      modifies this
      ensures var ahead := replies[old(next)..];
        && TurnEnds(ahead, power, degrees, margin, poll, timeout, rounds, status, ending, readings)
        && commands == old(commands) + Sent(ahead, power, degrees, margin, ending)
      ensures ending == Refused <==> margin >= degrees
      ensures ending == Refused ==> status == 0 && commands == old(commands) && next == old(next)
      ensures ending == NoPower <==> margin < degrees && power == 0 && StatusAt(replies, old(next)) >= 0
      ensures ending == NoPower ==> status == 0 && commands == old(commands)
      ensures ending.Arrived? || ending.TimedOut? ==>
        && power != 0
        && commands == old(commands) + [Turn(Clamp(power), degrees), Brake]
      ensures ending == TimedOut ==> status == -ERROR_TIMEOUT && timeout > 0 && clock >= old(clock) + timeout
      // a failure is that of a reply, or that there is none left
      ensures ending == Failed ==>
        exists i: nat :: old(next) <= i <= |replies| && status == StatusAt(replies, i) < 0
      ensures ending == Failed ==>
        commands == old(commands) + if readings == [] then [] else [Turn(Clamp(power), degrees)]
      ensures FromReplies(readings, replies[old(next)..], poll)
      // the turn goes on while no reading has reached the target, and ends with the first that has
      ensures |readings| > 1 ==>
        && margin < degrees
        && var target := Target(power, readings[0], degrees - margin);
           && UnderWay(power, target, readings[..|readings| - 1])
           && (ending == Arrived <==> Reached(power, target, readings[|readings| - 1]))
      ensures ending == Arrived ==> |readings| > 1
      ensures ending == Arrived && !Overflows(power, readings[0], degrees - margin) ==>
        Travelled(power, readings[0], degrees - margin, readings[|readings| - 1])
      // at most ceil(timeout / poll) readings after the first
      ensures poll > 0 && timeout > 0 && |readings| > 0 ==> |readings| - 1 <= MostPolls(poll, timeout)
    {
      hide Target, Overflows, Travelled, Slept, MostPolls, FromReplies, UnderWay, LoopEnds, Reached;
      ghost var start, ahead := next, replies[next..];
      status, ending, readings, rounds := RunTurn(power, degrees, margin, poll, timeout);
      TurnMeaning(ahead, power, degrees, margin, poll, timeout, rounds, status, ending, readings);
      if ending == Failed {
        var i: nat :| i <= |ahead| && status == StatusAt(ahead, i) < 0;
        assert StatusAt(replies, start + i) == StatusAt(ahead, i);
      }
    }
  }
}
