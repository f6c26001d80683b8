# Lothar: scheduler, heap, vector, framing, sensors and the blocking turn

A model in Dafny of the parts of the Lothar library that keep state, with proofs of what they
guarantee.

**The scheduler and what it stands on.** `Vectors.dfy` is the growable array of `src/vector.c`,
`Heaps.dfy` the binary heap of `src/heap.c`, `Schedulers.dfy` the scheduler object of
`src/scheduler.c`. These are classes that change in place, and each of their methods is tied to a
function on values: the heap to `HeapOrder.dfy`, the scheduler to `SchedulerModel.dfy`. About those
functions the rest is proved:

- `HeapOrder.dfy`, `PriorityQueue.dfy`: heap order, swap counts, and the refinement of a multiset
  priority queue, for any comparator that is a total preorder on the stored items; conservation and
  termination for every comparator. `UpHeap` keeps the shape of the original, a loop whose body also
  recurses.
- `JobOrder.dfy`: `job_cmp`, and exactly when it is a total preorder. It is not one in general: three
  jobs can beat each other in a circle.
- `SchedulerModel.dfy`: the scheduler as a machine with atomic steps. User callbacks are the
  environment: between the start and the end of a job any steps may happen, nested runs included,
  and the jobs on the C stack are explicit state. Every call of the interface, with all that
  happens inside its callbacks, is shown to be a run of steps. `log` is the trace of what the
  scheduler does to the outside. Each add call gets a ticket, which stands for its private data.
- `Ownership.dfy`: exactly-once cleanup and the life of `interval_job_t` records, over every run. No
  hypothesis on the comparator is needed here.
- `Requests.dfy`: what the add calls of a run passed, which is what every later law compares with.
- `Tickets.dfy`: every step as one ticket sees it. On it rest `RunCount.dfy` (how often a job runs),
  `Timing.dfy` (when), `Durations.dfy` (what is measured), `Averages.dfy` (the truncated running
  average), put together for all runs in `Lifetimes.dfy`.
- `Rounds.dfy`, `Returns.dfy`: what starting, running, stopping and returning do, in terms of the
  queue, the clock, the requests and the answers of the environment; `Example.dfy` follows one job
  from its add call to its cleanup.
- `Scripts.dfy`: what callbacks call, and what every call leaves alone: the log only grows, the C
  stack is as it was.
- `Priority.dfy`, `Termination.dfy`, `Starvation.dfy`: which job is next, how long
  `lothar_scheduler_run` takes, and how long a job can be kept waiting. Callbacks may take time and
  run further jobs themselves in all of these.

**Framing.** `Framing.dfy` and `Connections.dfy` are the Bluetooth frames of `src/connection.c`,
over a backend that may take partial writes, answer with short reads, and fail.

**Sensors and motors.** `Sensors.dfy` is the sensor object of `src/sensor.c`, with failures possible
at every command; `Motors.dfy` is the blocking turn of `src/motor.c`.

Modelling choices:

- The vector's block is one slot longer than its capacity, so that what its shift loops do past the
  end is defined; `reach` records how far they go.
- What a read of an oversize message writes past the caller's buffer is counted and not stored; the
  header variable that may stay uninitialised is a parameter.
- Times, nice values and counters are natural numbers. The clock never goes back, and a successful
  sleep lasts at least as long as asked. `called` stops at `UINT_MAX` as in the source; the motor's
  target wraps at 32 bits; header bytes wrap at 8, and the
  length that is read back at 16.
- A backend, a brick or a sensor device is a list of answers that it will give; with none left it
  answers with an error. A backend can limit what each read brings; with no limits left a read
  brings all that it asks for, as long as the stream lasts.
- A run of `lothar_scheduler_run` is watched for as many rounds as a given list has, since jobs may
  recur for ever.

Where the code differs from its documentation, or from what one would expect of it, the model
follows the code:

- The shift loops of `vector_insert` and `vector_remove` touch the slot after the last item. That is
  outside the block exactly when an insert fills the block or finds a full one of one slot, and when
  a remove finds it full. The very first push onto a new heap is such a case (`FirstPush`).
- `lothar_scheduler_run_single` returns 0 on an empty queue; the header promises an error.
- `lothar_scheduler_stop` called inside a callback does not purge the interval job that is running:
  that one puts itself back (`StopInsideCallback` says exactly when, `StopCanKeepAJob` gives a run).
- `up_heap` on a node with children restores heap order only if the children do not beat the
  node's parent (`UpHeapRestores`, both directions); `heap_push` always passes a leaf.
- `lothar_sensor_value` makes an eleventh reading but times out even when that one is valid
  (`EleventhIsLost`).
- The stop test of a blocking turn is sound exactly when the target does not overflow; otherwise a
  turn can end before the motor has moved (`StopTestCanMislead`).
- Messages of 65536 bytes or more are framed with their length modulo 65536.
- `lothar_bt_read` relies on every read of the backend to bring all that it asks for
  (`ReadFrameIff`); writes may be partial. It takes a header read of 0 bytes for a success. It asks
  for the whole of a message that is longer than the buffer (`StaysInBufferIff`), and if an odd
  number of its bytes is then left to skip, all that follows is skipped too (`OversizeSkipsIff`).

## Model

| member | source | states |
|---|---|---|
| HeapOrder.ParentInvertsChildren | src/heap.h:44-46 | The left, right and parent macros describe one binary tree: parent undoes both children, every node but the root is a child of a smaller node, and no node has a third child. |
| HeapOrder.UpHeapIsSiftUp | src/heap.c:22-33 | If the edges above the node are in order and the comparator is sign-antisymmetric (no transitivity needed), the loop never iterates again after its recursive call returns: `up_heap` equals a plain sift-up and makes at most depth-many swaps. |
| HeapOrder.UpHeapRestores | src/heap.c:22-33 | From a heap whose only bad edge leads from the node to its parent, `up_heap` yields heap order if and only if that edge was fine, or the node is the root, or its children do not beat its parent. |
| HeapOrder.DownHeapRestores | src/heap.c:35-69 | From a heap whose only bad edges lead from one node to its children, under a total preorder, `down_heap` restores heap order. |
| HeapOrder.DownHeapSwapBound | src/heap.c:35-69 | `down_heap` swaps at most once per level below the node, for any comparator. |
| HeapOrder.EqualStaysBelow | src/heap.c:22-33 | `up_heap` does not move an item that does not beat its parent. |
| HeapOrder.LeftBeforeRight | src/heap.c:55-62 | `down_heap` goes to the right child only if that beats the left one, and to neither unless it beats the item. |
| HeapOrder.DepthIsLog2 | src/heap.h:46 | The number of parent steps from node n to the root is the floor of log2(n + 1), which makes the swap bounds logarithmic. |
| HeapOrder.PushKeepsOrder | src/heap.c:71-77 | Push keeps heap order under a total preorder on the stored and the new item, within floor(log2(size + 1)) swaps. |
| HeapOrder.PopKeepsOrder | src/heap.c:79-93 | Pop keeps heap order, invents no item, takes an item that no stored one beats, and needs logarithmically many swaps. |
| PriorityQueue.Conservation | src/heap.c:71-93 | Over any list of pushes and pops, with any comparator at all, stored plus pushed items equal remaining plus popped ones, as multisets. |
| PriorityQueue.HeapRefinesQueue | src/heap.c:71-93 | Under a total preorder every list of pushes and pops answers as an abstract multiset priority queue would: each pop removes one item that no other beats, and popping an empty heap gives nothing. |
| PriorityQueue.PushThenDrainSorts | src/heap.c:71-93 | Pushing any items and popping until empty lists a permutation of them in priority order. |
| Vectors.ResizedFits | src/vector.c:29-51 | From any capacity, every resize ends with 1 <= capacity and size <= capacity <= max(4, 2 * size + 1). |
| Vectors.ResizedMeaning | src/vector.c:29-51 | The capacity grows by doubling, no further than needed; it shrinks exactly when it is more than 4 and less than half used, and then to one that would not shrink again. |
| Vectors.FullAfterInsertIff | src/vector.c:29-63 | After the resize for one more item the block is completely full if and only if there was just one free slot, or the block was a full one of one slot. |
| Vectors.ResizedKeepsPow2 | src/vector.c:29-51 | Doubling and halving keep a capacity a power of two. |
| Vectors.Vector.constructor | src/vector.c:4-13 | A new vector has the size asked for, capacity at least 1, and is within the space bound. |
| Vectors.Vector.Resize | src/vector.c:29-51 | Resize sets the size, keeps all items in common through reallocation, and leaves the doubled or halved capacity, within the space bound. |
| Vectors.Vector.Insert | src/vector.c:53-63 | The in-place shift loop yields the old items before i, the new item, and the old items from i on; it writes the slot after the last item, which is outside the block if and only if the block is full after the resize. |
| Vectors.Vector.Remove | src/vector.c:65-75 | Remove returns item i and leaves the others in order; it reads the slot after the last item, which is outside the block if and only if the block was full. |
| Vectors.Vector.Exchange | src/vector.c:77-85 | Swap exchanges two items in place and touches no other. |
| Vectors.Vector.PushBack | src/vector.h:57-60 | Appends the item. |
| Vectors.Vector.PopBack | src/vector.h:67-70 | Removes and returns the last item. |
| Heaps.Heap.constructor | src/heap.c:4-12 | A new heap is empty, with a power-of-two capacity. |
| Heaps.Heap.Peek | src/heap.h:39-42 | The root, or nothing when empty; the very item that the next pop returns. |
| Heaps.Heap.NodeParent | src/heap.h:60-63 | The root alone has no parent; every other node is the left or the right child of the smaller node that is returned. |
| Heaps.Heap.UpHeap | src/heap.c:22-33 | The loop with its recursive call has the effect and the number of swaps of `HeapOrder.UpHeap`, for any comparator. |
| Heaps.Heap.DownHeap | src/heap.c:35-69 | The loop has the effect and the number of swaps of `HeapOrder.DownHeap`; a right child without a left one cannot occur. |
| Heaps.Heap.Push | src/heap.c:71-77 | Appends and sifts up, in place, keeping the capacity a power of two. |
| Heaps.FirstPush | src/heap.c:71-77 | The first push onto a new heap works on a block of one slot and touches the slot after it. |
| Heaps.Heap.Pop | src/heap.c:79-93 | Answers and changes the heap as the abstract `Apply` of a pop, also on an empty heap. |
| JobOrder.JobCmpMeaning | src/scheduler.c:24-67 | `job_cmp` is positive exactly when the first job ends before the second starts, or they overlap and it is smaller by (nice, start, end); it is sign-antisymmetric, and 0 only for equal keys. |
| JobOrder.JobCmpPreorderIff | src/scheduler.c:24-67 | `job_cmp` is a total preorder on a set of jobs if and only if there are no x, y, z in it where x ends before y starts, z overlaps both, and (nice, start, end) puts y before z before x. |
| JobOrder.JobCmpPreorderWhen | src/scheduler.c:42-61 | It is a total preorder when all nice values are equal, when all estimates are 0, and when all jobs overlap pairwise. |
| JobOrder.EqualNiceOrder | src/scheduler.c:42-61 | Between equally nice jobs it goes by arrival time and then by estimate, whether they overlap or not. |
| JobOrder.JobCmpCanBeCyclic | src/scheduler.c:38-61 | Three concrete jobs that beat each other in a circle. |
| SchedulerModel.CallIsRun | src/scheduler.c:144-206 | Every call, with everything its callbacks call in turn, is a run of atomic steps. |
| SchedulerModel.RunAllIsRun | src/scheduler.c:175-189 | So is every call of `lothar_scheduler_run`. |
| Rounds.CallUnfolds | src/scheduler.c:144-206 | The steps of a call are these: one for a call that runs no job; for `run_single` none if there is nothing to run or the sleep fails, else the start of the first job, all calls of its function in order if one was passed, and the return. |
| Rounds.BeginMeaning | src/scheduler.c:148-164 | A start takes the first job off the queue at the later of its arrival time and now, plus the delay, and calls the function if one was passed. |
| Rounds.RoundMeaning | src/scheduler.c:144-173 | `run_single` returns 0 and does nothing on an empty queue; an error, and does nothing, if the first job is due later and the sleep fails; otherwise 0, and the log goes on with the start of the first job. |
| Rounds.RunMeaning | src/scheduler.c:175-189 | `run` returns an error if and only if in some round, all before it having succeeded, the first job is due later and the sleep fails; the state is then that before this round. |
| Rounds.StopMeaning | src/scheduler.c:191-206 | `stop` empties the queue, cleaning up in the order in which jobs would be popped, and touches neither the clock nor the running jobs. |
| Requests.OneShotEnters | src/scheduler.c:88-112 | A plain add call puts one job in the queue, FIRSTTIME, due so much from now, with the estimate and the nice value passed; nothing else changes. |
| Requests.RecurringEnters | src/scheduler.c:290-310 | An interval add call puts one job in the queue and one record in the table, with everything that was passed. |
| Requests.TasksAsAsked | src/scheduler.c:88-112 | Over any run, ticket n is that of the n-th add call, and its task has exactly the kind, function, cleanup, due time, estimate, nice value, interval and number of runs that were passed. |
| Ownership.ExactlyOnceCleanup | src/scheduler.c:144-206 | After any run, in any nesting, failed sleeps and the failed re-queue branch included, each added ticket is held by exactly one job and not cleaned up, or retired and cleaned up exactly once if it has a cleanup. |
| Ownership.CleanupComesLast | src/scheduler.c:163-169 | Over any run, nothing happens to a ticket after its cleanup has been called. |
| Ownership.RecordsAreSafe | src/scheduler.c:253-288 | Over any run no freed `interval_job_t` is used, and the live ones are exactly those of held interval jobs: no double free and no leak. |
| Ownership.StopRetiresAll | src/scheduler.c:191-206 | `stop` outside callbacks leaves no job and no record, and every ticket ever added cleaned up exactly once. |
| Ownership.StopInsideCallback | src/scheduler.c:181-206 | After a `stop` inside callbacks, with nothing more called, the queue is empty once the innermost n running jobs have returned if and only if each of these is one-time, on its last run, or cannot be put back. |
| Ownership.StopCanKeepAJob | src/scheduler.c:181-288 | A run from the initial state in which a recurring job's callback calls `stop` and the job is queued again afterwards. |
| Ownership.FinishMeaning | src/scheduler.c:261-288 | When the innermost job returns it either leaves for good, its cleanup called and its record freed, or it is back in the queue with one run fewer, its next arrival one interval from now and the duration averaged in; the tag decides. |
| Returns.ReturnMeaning | src/scheduler.c:261-288 | After any run, a returning one-time job or last run leaves and is cleaned up; any other job goes back, due one interval as passed from now, at the average from before, and the time from its last start to when it is back is averaged in. |
| Returns.MeasuredLaw | src/scheduler.c:263-287 | Over any run, every duration in the log was measured by one return, right after the job was put back, and is the time from that job's last start to the end of that return. |
| Returns.TimeMeaning | src/scheduler.c:144-288 | After any run, what every step does to the clock. |
| Example.OneJob | src/scheduler.c:144-310 | A job with interval 5 and two runs, event by event, from its add call to its cleanup. |
| Tickets.StepView | src/scheduler.c:88-288 | Seen from any ticket, every step changes its job, record, timer and history not at all, or by exactly one start, leave or return; a new ticket begins as its add call asked. |
| Lifetimes.RunCounts | src/scheduler.c:261-276 | After any run, for every add call: the job held is of the kind and nice value passed; a queued interval job of n > 0 runs passed that has been started r times has n - r left, is tagged FIRSTTIME exactly when one is left, and never exceeds n; a retired one has run exactly n times unless `stop` was called; the function passed is called once per start. |
| Lifetimes.RunsOnTime | src/scheduler.c:150-164 | After any run, for every add call: every start was not earlier than the job's arrival time, which is the one passed, counted from the call, or one interval as passed after the last return; a queued job is due then; and from the end of an invocation to the start of any later one there was at least the interval. |
| Lifetimes.RunAverages | src/scheduler.c:283-287 | After any run, for every add call: every duration is at least the time from the job's start to its return; there is one for every return until the counter is full; with these and the estimate passed as k samples of sum S, 0 <= 2 * (S - k * average) <= k * (k - 1), the average lies between any bounds on the samples, and a queued job is estimated at the average from before its last return. |
| Averages.AverageErrorBound | src/scheduler.c:283-287 | The rounding error of the running average over k samples is at most 1 + ... + (k - 1) in the sum, and never upwards. |
| Averages.AverageBetween | src/scheduler.c:283-287 | The average stays between the minimum and the maximum of the samples. |
| Averages.AverageErrorIsTight | src/scheduler.c:283-287 | The bound is attained for every k: durations e + 1, e + 2, ... leave an average of e unmoved for ever. |
| Termination.RunTerminates | src/scheduler.c:175-189 | If every queued job ends, the sleeps of `run` succeed and callbacks make no add calls (they may take time, run further jobs and stop the scheduler), `run` leaves an empty queue after at most as many rounds as invocations were left, and everything is cleaned up once. If callbacks do not call `stop`, exactly the invocations left are made, one in each round unless callbacks run jobs themselves; if `stop` was never called, every job ever added has then run exactly as often as asked. |
| Priority.ServesByPriority | src/scheduler.c:148-164 | In any run whose queued jobs contain no cyclic triple, the job started next is one that no queued job beats. |
| Starvation.NoStarvation | src/scheduler.c:144-189 | With equal nice values and intervals of at least 1, `run` called while a job is queued has started it within one round more than the sum of the leads of the other jobs in arrival time, if its sleeps succeed; callbacks may take time, run further jobs, and add jobs due later than this one, but not call `stop`. |
| Starvation.BoundedWaiting | src/scheduler.c:88-288 | The same from any reachable state, in the middle of callbacks or not, and for any further steps: if more jobs are started than the sum of the leads, the waiting one is among them. |
| Starvation.NoStarvationWhenQuiet | src/scheduler.c:175-189 | The hypotheses on added jobs hold whenever callbacks neither add jobs nor call `stop`. |
| Starvation.ZeroIntervalStarves | src/include/scheduler.h:44 | With interval 0 and equal nice values a job can be kept waiting for any number of rounds. |
| Schedulers.Scheduler.constructor | src/scheduler.c:69-72 | A new scheduler is in the initial state. |
| Schedulers.Scheduler.Next | src/scheduler.c:134-142 | The first job's arrival time, 0 when empty. |
| Schedulers.Scheduler.SchedulerAdd | src/scheduler.c:88-107 | Pushes a job that arrives so much from now. |
| Schedulers.Scheduler.Add | src/scheduler.c:109-112 | Adds a one-time job, FIRSTTIME, under a new ticket, with what was passed; the books stay in order. |
| Schedulers.Scheduler.AddInterval | src/scheduler.c:290-310 | Adds an interval job and its record, with what was passed; the books stay in order. |
| Schedulers.Scheduler.Stop | src/scheduler.c:191-206 | Pops and cleans up until the queue is empty; every record it frees is live. |
| Schedulers.Scheduler.IntervalReturn | src/scheduler.c:269-287 | The rest of `interval_function` after the callback: last run, failed re-queue, or re-queue and averaging. |
| Schedulers.Scheduler.Measure | src/scheduler.c:281-287 | Averages in the time from the timer to when the job is back in the queue, unless the counter is full. |
| Schedulers.Scheduler.RunSingle | src/scheduler.c:144-173 | Returns an error exactly when the first job is due later than now and the sleep fails, and has then changed nothing; otherwise 0, with the first job started, its callback run with whatever it calls, and cleaned up; an empty queue gives 0. |
| Schedulers.Scheduler.Run | src/scheduler.c:175-189 | Runs single rounds until the queue is empty or a sleep fails while no job is due, which alone is an error, or the rounds it is watched for are used up. |
| Framing.HeaderRoundTrip | src/include/utils.h:59-62 | The low byte of the length goes first; the length read back from the two header bytes is the length written, modulo 65536. |
| Framing.FrameRoundTripIff | src/connection.c:23-68 | A frame followed by anything is parsed back into the message and the rest if and only if the message is shorter than 65536 bytes. |
| Framing.FramesRoundTrip | src/connection.c:23-94 | The frames of any list of such messages, followed by anything, parse back into the same messages in the same order and what follows them. |
| Framing.FramesInjective | src/connection.c:23-33 | Different lists of such messages give different byte streams. |
| Connections.DeliverMeaning | src/connection.c:35-46 | The write loop gets to the end if and only if some initial backend counts are all positive and reach the length; it stops after at most that many calls, plus one to learn of a failure. |
| Connections.BtWrite | src/connection.c:23-51 | On success the backend has received exactly the frame and the length is returned; on failure a proper prefix of the frame and -1. |
| Connections.BtRead | src/connection.c:53-95 | Does what `ReadFrame` says for any stream, any read limits and any buffer: status, bytes in the buffer, how far the writing goes, and what is left of the stream. |
| Connections.ReadFrameIff | src/connection.c:53-95 | A frame that fits in the buffer is read as its message, whatever the uninitialised header held, and the stream left just after it, if and only if neither the header read nor the body read is cut short. |
| Connections.ReadFrameGenerous | src/connection.c:53-95 | With no read cut short, the outcome for every stream: the first message, clipped status for a long one, and each way in which the stream can end early. |
| Connections.ReadFrameFails | src/connection.c:60-65 | If the header read fails or brings one byte, the answer is -1; if the body read fails, its error; the buffer is unchanged. |
| Connections.StaysInBufferIff | src/connection.c:70-85 | With no read cut short, what is written stays within the buffer if and only if the length announced is at most that of the buffer, or no more bytes than the buffer holds have come. |
| Connections.OversizeSkipsIff | src/connection.c:70-85 | After a first read of c bytes of an oversize message, what follows the message survives if and only if an even number of its bytes is left or nothing follows. |
| Connections.SendMessages | src/connection.c:23-51 | Messages sent one after the other: the backend has the frames of the first ones and a proper prefix of the next; all of them if there are enough answers and none fails. |
| Connections.ReceiveMessages | src/connection.c:53-95 | Messages read one after the other into buffers that are long enough are those that the stream parses into, and the rest of the stream stays. |
| Connections.SendAndReceive | src/connection.c:23-95 | From end to end, whatever partial writes there are, the messages sent in full arrive identical and in order, and all of them if writing does not fail. |
| Sensors.Sensor.Open | src/sensor.c:164-193 | A sensor is handed out if and only if its type is supported and its start succeeds; it is then active with the type asked for and the range and reader of that type. |
| Sensors.Sensor.Reset | src/sensor.c:239-275 | Sets the mode of the type asked for and returns what that answers; the sensor is then active with the range and reader of its type (1..6 for full color, 0..1 for touch, 0..255 for ultrasound, else 0..1023), or failed and is as it was; an unsupported type changes nothing and gives an error. |
| Sensors.Sensor.Stop | src/sensor.c:277-286 | Sets the mode of no sensor and returns what that answers; the bounds are 0, the type last asked for is kept. |
| Sensors.Sensor.StartColored | src/sensor.c:83-114 | A color sensor gets the range and the reader of its own color type, or stays as it was. |
| Sensors.Sensor.StartUltrasonic | src/sensor.c:132-162 | Sets the type before its first reading, so the recursion through `Value` goes no deeper, and the retry loop returns in its first round; mode, sleep of 1000 and one reading are asked for in this order, and the first that fails is the answer. |
| Sensors.Sensor.Value | src/sensor.c:288-318 | An active sensor gives the first valid one of ten readings, if nothing failed before it, and fails otherwise; a stopped one is started with its last type first and then read, and succeeds if and only if both do; the value and the replies used are exact in each case. |
| Sensors.Sensor.Poll | src/sensor.c:302-317 | Ends with the first valid value of ten readings, the error of a reading or of a sleep between them, or, after an eleventh reading that is always made then, with the error of that or a timeout; with all commands and sleeps in order. |
| Sensors.PollEndsOnce | src/sensor.c:302-317 | Only one of these ends is possible. |
| Sensors.PollCommandsAre | src/sensor.c:302-312 | Readings and sleeps alternate, and the sleeps get longer by 10 each time. |
| Sensors.EleventhIsLost | src/sensor.c:302-317 | Replies with which the eleventh reading is valid and a light sensor still brings nothing. |
| Motors.StopTestSoundIff | src/motor.c:133-149 | The stop test implies that the distance has been travelled if and only if the 32-bit target does not overflow, and then it is implied by it too. |
| Motors.StopTestCanMislead | src/motor.c:133-149 | A start, power and distance with which the stop test holds before the motor has moved. |
| Motors.SleepsWithin | src/motor.c:143-157 | The polling bound in the form of a division rounded up. |
| Motors.Motor.TurnBlock | src/motor.c:114-163 | The only possible end for the replies given: refused, no power, the first failing reply, the first reading that has reached the target with the brake's answer, or the timeout, whichever comes first; with the commands sent in each case. Without overflow an arrival means the distance has been travelled; at most ceil(timeout / poll) readings are made in the loop. |
| Motors.Motor.RunTurn | src/motor.c:114-163 | The loop itself: how it ends, in which round, and what it has sent. |
| Motors.TurnEndsOnce | src/motor.c:114-163 | The replies determine how a turn ends. |
| Motors.TurnMeaning | src/motor.c:114-163 | A failure is that of a reply or of none being left; no power if and only if the first reading succeeds with power 0; no reading before the last has reached the target. |

## Left out

- Null schedulers, sensors, motors and connections, which the source answers with an error.
- `job_t` and `interval_job_t` are values, the latter in a map keyed by ticket: aliasing of user data between add calls, and the reuse of freed addresses, are not modelled.
- Overflow of 64-bit times, of `size_t` capacities and of the product inside the running average.
- Cleanup callbacks that call back into the scheduler.
- Heaps without a comparator, `heap_free`, `lothar_scheduler_destroy` and other freeing of memory.
- Starvation.NoStarvation: nothing is claimed for jobs of different nice values, whose order is not transitive in general.
- Connections.BtRead: does not model where the bytes of an oversize message go beyond the buffer, only how many there are.
- Schedulers.Scheduler.Run: the source loops for as long as there are jobs, which may be for ever; the model stops when the given list of rounds is used up.
- Vectors.Vector.Insert: does not model what lies in memory after the block.
- The message bytes of the commands layer, the USB and Bluetooth backends, opening and closing connections.
- The steering model, which is floating-point odometry.
- `d_mode` of a sensor, which is written and never read, and the bytes of the commands to a device.
- Schedulers.Scheduler.RunSingle: the error of a failed sleep is -1, whatever code the sleep gave.
- `lothar_motor_run`, `lothar_motor_sync` and the other one-line motor calls.
- The Python and C++ wrappers, logging and error strings.
