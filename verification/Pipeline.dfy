/** From camera to encoder and back. Four threads hand requests and encoder input buffers to each
    other through blocking queues, here plain sequences: a completed request goes into two of them,
    one to be encoded and one to be reused, and what is reused when the encoder finishes a frame is
    the head of the second queue, whatever frame was finished. */
module Pipeline {

  /** A completed request. `number` counts the completions before it; no step looks at it. */
  datatype Frame = Frame(request: nat, number: nat)

  /** An encoder input buffer in use: its index, and the frame it was queued with. */
  datatype Input = Input(index: nat, frame: Frame)

  /** The camera thread in `requestComplete`. */
  datatype Completing = NotCompleting | BetweenQueues(request: nat)

  /** The first streamer thread in `completedRequestsProcessor`. */
  datatype Encoding = NotEncoding | HasFrame(frame: Frame) | HasIndex(input: Input)

  /** The encoder's poll thread in `pollReadyToReuseOutputBuffers` and `ReuseRequest`. */
  datatype Returning = NotReturning | HasReturned(index: nat) | HasFreed | HasPopped(request: nat)

  datatype State = State(
    atCamera: set<nat>,          // requests queued with the camera
    completed: seq<Frame>,       // completedRequestsQueue_
    toReuse: seq<nat>,           // requestsToReuseQueue_
    free: seq<nat>,              // availableInputBuffers_
    device: seq<Input>,          // inputs the encoder holds, in the order in which it returns them
    completing: Completing,
    encoding: Encoding,
    returning: Returning)

  datatype Action =
    | Complete(request: nat)  // requestComplete, line 204
    | Publish                 // requestComplete, line 205
    | Cancel(request: nat)    // requestComplete, lines 199-202
    | TakeCompleted           // WaitForCompletedRequest
    | TakeIndex               // EncodeBuffer, lines 197-202
    | QueueInput              // EncodeBuffer, line 218
    | ReturnInput             // pollReadyToReuseOutputBuffers, lines 293-294
    | FreeIndex               // pollReadyToReuseOutputBuffers, line 299
    | PopReuse                // ReuseRequest, line 247
    | Requeue                 // ReuseRequest, lines 248-249

  /** What has happened so far. */
  datatype Log = Log(
    frames: seq<nat>,      // requests in the order of their completion
    encoded: seq<nat>,     // numbers of the frames the encoder has returned
    skipped: set<nat>,     // numbers of the frames skipped for want of an input buffer
    recycled: nat,         // requests popped for reuse
    cancelled: nat)

  datatype System = System(s: State, log: Log)

  /** A step that is not enabled changes nothing. */
  function Act(s: State, a: Action, number: nat): State {
    match a
    case Complete(r) =>
      if r in s.atCamera && s.completing.NotCompleting? then
        s.(atCamera := s.atCamera - {r}, completed := s.completed + [Frame(r, number)], completing := BetweenQueues(r))
      else s
    case Publish =>
      if s.completing.BetweenQueues? then
        s.(toReuse := s.toReuse + [s.completing.request], completing := NotCompleting)
      else s
    case Cancel(r) =>
      if s.completing.NotCompleting? then s.(atCamera := s.atCamera - {r}) else s
    case TakeCompleted =>
      if s.encoding.NotEncoding? && s.completed != [] then
        s.(completed := s.completed[1..], encoding := HasFrame(s.completed[0]))
      else s
    case TakeIndex =>
      if !s.encoding.HasFrame? then s
      else if s.free == [] then s.(encoding := NotEncoding)
      else s.(free := s.free[1..], encoding := HasIndex(Input(s.free[0], s.encoding.frame)))
    case QueueInput =>
      if s.encoding.HasIndex? then s.(device := s.device + [s.encoding.input], encoding := NotEncoding) else s
    case ReturnInput =>
      if s.returning.NotReturning? && s.device != [] then
        s.(device := s.device[1..], returning := HasReturned(s.device[0].index))
      else s
    case FreeIndex =>
      if s.returning.HasReturned? then s.(free := s.free + [s.returning.index], returning := HasFreed) else s
    case PopReuse =>
      if s.returning.HasFreed? && s.toReuse != [] then
        s.(toReuse := s.toReuse[1..], returning := HasPopped(s.toReuse[0]))
      else s
    case Requeue =>
      if s.returning.HasPopped? then s.(atCamera := s.atCamera + {s.returning.request}, returning := NotReturning)
      else s
  }

  function Record(s: State, log: Log, a: Action): Log {
    match a
    case Complete(r) =>
      if r in s.atCamera && s.completing.NotCompleting? then log.(frames := log.frames + [r]) else log
    case Cancel(r) =>
      if r in s.atCamera && s.completing.NotCompleting? then log.(cancelled := log.cancelled + 1) else log
    case TakeIndex =>
      if s.encoding.HasFrame? && s.free == [] then log.(skipped := log.skipped + {s.encoding.frame.number}) else log
    case ReturnInput =>
      if s.returning.NotReturning? && s.device != [] then log.(encoded := log.encoded + [s.device[0].frame.number])
      else log
    case PopReuse =>
      if s.returning.HasFreed? && s.toReuse != [] then log.(recycled := log.recycled + 1) else log
    case _ => log
  }

  function Next(y: System, a: Action): System {
    System(Act(y.s, a, |y.log.frames|), Record(y.s, y.log, a))
  }

  function Below(n: nat): (s: set<nat>)
    ensures |s| == n
    ensures forall r :: r in s <==> 0 <= r < n
  {
    if n == 0 then {} else Below(n - 1) + {n - 1}
  }

  /** `requests` requests queued with the camera, and `buffers` encoder input buffers, all free. */
  function Start(requests: nat, buffers: nat): System {
    System(State(Below(requests), [], [], seq(buffers, i => i), [], NotCompleting, NotEncoding, NotReturning),
           Log([], [], {}, 0, 0))
  }

  function Run(y: System, acts: seq<Action>): System {
    if acts == [] then y else Next(Run(y, acts[..|acts| - 1]), acts[|acts| - 1])
  }

  // ----- Counting ---------------------------------------------------------------------------------

  function One(b: bool): nat { if b then 1 else 0 }

  /** Requests completed and not yet popped for reuse. */
  function Outstanding(log: Log): int {
    |log.frames| - log.recycled
  }

  /** Nothing is lost: requests, frames and input buffers are all accounted for. */
  ghost predicate Counts(y: System, requests: nat, buffers: nat) {
    var s, log := y.s, y.log;
    && log.recycled <= |log.frames|
    && |s.atCamera| + log.cancelled + Outstanding(log) + One(s.returning.HasPopped?) == requests
    && |log.frames| == |log.encoded| + |log.skipped| + |s.device| + |s.completed| + One(!s.encoding.NotEncoding?)
    && |s.free| + |s.device| + One(s.encoding.HasIndex?) + One(s.returning.HasReturned?) == buffers
    && |log.encoded| == log.recycled + One(s.returning.HasReturned? || s.returning.HasFreed?)
    && |s.toReuse| + One(s.completing.BetweenQueues?) == Outstanding(log)
    && |log.skipped| <= (if requests > buffers then requests - buffers else 0)
  }

  // ----- Order ------------------------------------------------------------------------------------

  ghost predicate Increasing(s: seq<nat>) {
    forall i, j :: 0 <= i < j < |s| ==> s[i] < s[j]
  }

  function Held(e: Encoding): seq<Frame> {
    match e
    case NotEncoding => []
    case HasFrame(f) => [f]
    case HasIndex(input) => [input.frame]
  }

  function DeviceFrames(device: seq<Input>): (f: seq<Frame>)
    ensures |f| == |device|
  {
    seq(|device|, i requires 0 <= i < |device| => device[i].frame)
  }

  /** The frames in the pipeline from its head to its tail: held by the encoder, in the hands of the
      streamer thread, waiting. */
  function InFlight(s: State): seq<Frame> {
    DeviceFrames(s.device) + Held(s.encoding) + s.completed
  }

  function Numbers(frames: seq<Frame>): (n: seq<nat>)
    ensures |n| == |frames|
  {
    seq(|frames|, i requires 0 <= i < |frames| => frames[i].number)
  }

  /** What the encoder has returned and what is still on its way to it are in the order of completion;
      every other frame has been skipped. */
  ghost predicate InOrder(flight: seq<Frame>, log: Log) {
    && Increasing(log.encoded + Numbers(flight))
    && (forall i :: 0 <= i < |flight| ==>
          flight[i].number < |log.frames| && log.frames[flight[i].number] == flight[i].request)
    && (forall n :: n in log.encoded ==> n < |log.frames|)
    && (forall n :: 0 <= n < |log.frames| ==>
          n in log.skipped || n in log.encoded || n in Numbers(flight))
    && (forall n :: n in log.skipped ==>
          n < |log.frames| && n !in log.encoded && n !in Numbers(flight))
  }

  ghost predicate Ordered(y: System) {
    InOrder(InFlight(y.s), y.log)
  }

  /** A request that has been completed and not popped is nowhere else: not with the camera, and not
      completed a second time. */
  ghost predicate Separate(y: System) {
    var s, log := y.s, y.log;
    && log.recycled <= |log.frames|
    && (forall i, j :: log.recycled <= i < j < |log.frames| ==> log.frames[i] != log.frames[j])
    && (forall i :: log.recycled <= i < |log.frames| ==> log.frames[i] !in s.atCamera)
    && (s.returning.HasPopped? ==>
          && s.returning.request !in s.atCamera
          && log.recycled > 0 && s.returning.request == log.frames[log.recycled - 1]
          && forall i :: log.recycled <= i < |log.frames| ==> log.frames[i] != s.returning.request)
  }

  /** The reuse queue holds the completed requests in order, from the first one not yet popped. */
  ghost predicate Fifo(y: System) {
    var s, log := y.s, y.log;
    && log.recycled + |s.toReuse| <= |log.frames|
    && s.toReuse == log.frames[log.recycled..log.recycled + |s.toReuse|]
    && (s.completing.BetweenQueues? ==> |log.frames| > 0 && s.completing.request == log.frames[|log.frames| - 1])
  }

  ghost predicate Inv(y: System, requests: nat, buffers: nat) {
    Counts(y, requests, buffers) && Ordered(y) && Separate(y) && Fifo(y)
  }

  // ----- Every step keeps the invariant -------------------------------------------------------------

  /** How the frames in flight move: only a completion adds one, only a return or a skip removes one. */
  lemma FlightMoves(s: State, a: Action, number: nat)
    ensures var flight, flight' := InFlight(s), InFlight(Act(s, a, number));
      match a
      case Complete(r) =>
        flight' == if r in s.atCamera && s.completing.NotCompleting? then flight + [Frame(r, number)] else flight
      case ReturnInput =>
        if s.returning.NotReturning? && s.device != [] then flight == [s.device[0].frame] + flight'
        else flight' == flight
      case TakeIndex =>
        if s.encoding.HasFrame? && s.free == [] then
          flight == DeviceFrames(s.device) + [s.encoding.frame] + s.completed
          && flight' == DeviceFrames(s.device) + s.completed
        else flight' == flight
      case _ => flight' == flight
  {
    var s' := Act(s, a, number);
    match a
    case ReturnInput =>
      if s.returning.NotReturning? && s.device != [] {
        assert DeviceFrames(s.device) == [s.device[0].frame] + DeviceFrames(s'.device);
      }
    case QueueInput =>
      if s.encoding.HasIndex? {
        assert DeviceFrames(s'.device) == DeviceFrames(s.device) + [s.encoding.input.frame];
      }
    case _ =>
  }

  lemma NumbersConcat(a: seq<Frame>, b: seq<Frame>)
    ensures Numbers(a + b) == Numbers(a) + Numbers(b)
  {
  }

  lemma IncreasingWithout(a: seq<nat>, x: nat, b: seq<nat>)
    requires Increasing(a + [x] + b)
    ensures Increasing(a + b)
    ensures x !in a && x !in b
  {
    var c := a + [x] + b;
    assert forall i :: 0 <= i < |a + b| ==> (a + b)[i] == c[if i < |a| then i else i + 1];
    assert c[|a|] == x;
    assert forall i :: 0 <= i < |a| ==> a[i] == c[i];
    assert forall i :: 0 <= i < |b| ==> b[i] == c[|a| + 1 + i];
  }

  lemma OrderComplete(flight: seq<Frame>, log: Log, r: nat)
    requires InOrder(flight, log)
    ensures InOrder(flight + [Frame(r, |log.frames|)], log.(frames := log.frames + [r]))
  {
    var f, n := Frame(r, |log.frames|), Numbers(flight);
    NumbersConcat(flight, [f]);
    assert Numbers([f]) == [f.number];
    assert log.encoded + (n + [f.number]) == (log.encoded + n) + [f.number];
    assert forall i :: 0 <= i < |n| ==> n[i] < |log.frames|;
    assert forall i :: 0 <= i < |log.encoded| ==> log.encoded[i] in log.encoded;
  }

  lemma OrderReturn(flight: seq<Frame>, f: Frame, rest: seq<Frame>, log: Log)
    requires InOrder(flight, log) && flight == [f] + rest
    ensures InOrder(rest, log.(encoded := log.encoded + [f.number]))
  {
    NumbersConcat([f], rest);
    assert Numbers([f]) == [f.number];
    assert (log.encoded + [f.number]) + Numbers(rest) == log.encoded + ([f.number] + Numbers(rest));
    assert flight[0] == f;
    assert forall i :: 0 <= i < |rest| ==> rest[i] == flight[i + 1];
  }

  lemma OrderSkip(before: seq<Frame>, f: Frame, after: seq<Frame>, log: Log)
    requires InOrder(before + [f] + after, log)
    ensures InOrder(before + after, log.(skipped := log.skipped + {f.number}))
    ensures f.number !in log.skipped
  {
    var flight := before + [f] + after;
    NumbersConcat(before + [f], after);
    NumbersConcat(before, [f]);
    NumbersConcat(before, after);
    assert Numbers([f]) == [f.number];
    var a := log.encoded + Numbers(before);
    assert log.encoded + Numbers(flight) == a + [f.number] + Numbers(after);
    IncreasingWithout(a, f.number, Numbers(after));
    assert a + Numbers(after) == log.encoded + Numbers(before + after);
    assert flight[|before|] == f;
    assert forall i :: 0 <= i < |before + after| ==>
      (before + after)[i] == flight[if i < |before| then i else i + 1];
  }

  lemma OrderedKeeps(y: System, a: Action)
    requires Ordered(y)
    ensures Ordered(Next(y, a))
    ensures a.TakeIndex? && y.s.encoding.HasFrame? && y.s.free == [] ==> y.s.encoding.frame.number !in y.log.skipped
  {
    hide Numbers, Increasing;
    var s, log := y.s, y.log;
    FlightMoves(s, a, |log.frames|);
    var flight, flight' := InFlight(s), InFlight(Next(y, a).s);
    hide InFlight;
    match a
    case Complete(r) =>
      if r in s.atCamera && s.completing.NotCompleting? {
        OrderComplete(flight, log, r);
      }
    case ReturnInput =>
      if s.returning.NotReturning? && s.device != [] {
        OrderReturn(flight, s.device[0].frame, flight', log);
      }
    case TakeIndex =>
      if s.encoding.HasFrame? && s.free == [] {
        OrderSkip(DeviceFrames(s.device), s.encoding.frame, s.completed, log);
      }
    case _ =>
  }

  lemma CountsKeep(y: System, a: Action, requests: nat, buffers: nat)
    requires Counts(y, requests, buffers) && Separate(y)
    requires a.TakeIndex? && y.s.encoding.HasFrame? && y.s.free == [] ==> y.s.encoding.frame.number !in y.log.skipped
    ensures Counts(Next(y, a), requests, buffers)
  {
    hide Held, InFlight, Increasing;
    match a
    case Complete(_) =>
    case Publish =>
    case Cancel(_) =>
    case TakeCompleted =>
    case TakeIndex =>
    case QueueInput =>
    case ReturnInput =>
    case FreeIndex =>
    case PopReuse =>
    case Requeue =>
  }

  lemma SeparateKeeps(y: System, a: Action)
    requires Separate(y) && Fifo(y)
    ensures Separate(Next(y, a))
  {
  }

  lemma PublishKeepsFifo(y: System, requests: nat, buffers: nat)
    requires Counts(y, requests, buffers) && Fifo(y)
    ensures Fifo(Next(y, Publish))
  {
    var frames, k, m := y.log.frames, y.log.recycled, |y.s.toReuse|;
    if y.s.completing.BetweenQueues? {
      assert k + m + 1 == |frames|;
      assert frames[k..k + m + 1] == frames[k..k + m] + [frames[k + m]];
    }
  }

  lemma FifoKeeps(y: System, a: Action, requests: nat, buffers: nat)
    requires Counts(y, requests, buffers) && Fifo(y)
    ensures Fifo(Next(y, a))
  {
    var frames, k, m := y.log.frames, y.log.recycled, |y.s.toReuse|;
    hide Counts;
    match a
    case Complete(r) => assert (frames + [r])[k..k + m] == frames[k..k + m];
    case Publish => PublishKeepsFifo(y, requests, buffers);
    case PopReuse =>
      if y.s.toReuse != [] {
        assert frames[k..k + m][1..] == frames[k + 1..k + m];
      }
    case _ =>
  }

  lemma StepKeeps(y: System, a: Action, requests: nat, buffers: nat)
    requires Inv(y, requests, buffers)
    ensures Inv(Next(y, a), requests, buffers)
  {
    hide Ordered, Separate, Fifo, Counts, Next;
    OrderedKeeps(y, a);
    CountsKeep(y, a, requests, buffers);
    SeparateKeeps(y, a);
    FifoKeeps(y, a, requests, buffers);
  }

  // ----- Every run --------------------------------------------------------------------------------

  lemma StartOk(requests: nat, buffers: nat)
    ensures Inv(Start(requests, buffers), requests, buffers)
  {
    assert InFlight(Start(requests, buffers).s) == [];
  }

  lemma {:induction false} RunKeeps(requests: nat, buffers: nat, acts: seq<Action>)
    ensures Inv(Run(Start(requests, buffers), acts), requests, buffers)
  {
    hide Inv, Next;
    if acts == [] {
      StartOk(requests, buffers);
    } else {
      RunKeeps(requests, buffers, acts[..|acts| - 1]);
      StepKeeps(Run(Start(requests, buffers), acts[..|acts| - 1]), acts[|acts| - 1], requests, buffers);
    }
  }

  /** Strictly increasing numbers run ahead of their positions. */
  lemma {:induction false} IncreasingAhead(s: seq<nat>, i: nat)
    requires Increasing(s) && i < |s|
    ensures s[i] >= i
  {
    if i == 0 {
    } else {
      IncreasingAhead(s, i - 1);
    }
  }

  /** Every frame in flight was completed after as many others as the encoder has returned. */
  lemma FlightIsAhead(y: System, i: nat)
    requires Ordered(y) && i < |InFlight(y.s)|
    ensures InFlight(y.s)[i].number >= |y.log.encoded|
  {
    var all := y.log.encoded + Numbers(InFlight(y.s));
    assert all[|y.log.encoded| + i] == InFlight(y.s)[i].number;
    IncreasingAhead(all, |y.log.encoded| + i);
  }

  /** The camera is never given a frame buffer that the encoder, or a thread on the way to it, still
      holds: no request in flight is queued with the camera or about to be. */
  lemma CameraNeverOverwrites(requests: nat, buffers: nat, acts: seq<Action>, i: nat)
    ensures var y := Run(Start(requests, buffers), acts);
      i < |InFlight(y.s)| ==>
        && InFlight(y.s)[i].request !in y.s.atCamera
        && y.s.returning != HasPopped(InFlight(y.s)[i].request)
  {
    RunKeeps(requests, buffers, acts);
    var y := Run(Start(requests, buffers), acts);
    if i < |InFlight(y.s)| {
      FlightIsAhead(y, i);
    }
  }

  lemma ReuseSettled(y: System, requests: nat, buffers: nat)
    requires Inv(y, requests, buffers) && y.s.returning.HasFreed? && y.s.toReuse != []
    ensures var k := y.log.recycled;
      && k < |y.log.frames| && y.s.toReuse[0] == y.log.frames[k]
      && (k in y.log.skipped || k in y.log.encoded)
      && forall i :: 0 <= i < |InFlight(y.s)| ==> InFlight(y.s)[i].request != y.s.toReuse[0]
  {
    hide InFlight;
    var flight := InFlight(y.s);
    forall i | 0 <= i < |flight| ensures flight[i].number > y.log.recycled {
      FlightIsAhead(y, i);
    }
    assert y.log.recycled !in Numbers(flight);
  }

  /** The k-th request reused is the k-th completed, and its frame has by then been encoded or
      skipped, even though skips break the pairing of frames encoded and requests reused. */
  lemma ReusesInOrder(requests: nat, buffers: nat, acts: seq<Action>)
    ensures var y := Run(Start(requests, buffers), acts);
      var k := y.log.recycled;
      y.s.returning.HasFreed? && y.s.toReuse != [] ==>
        && k < |y.log.frames| && y.s.toReuse[0] == y.log.frames[k]
        && (k in y.log.skipped || k in y.log.encoded)
        && forall i :: 0 <= i < |InFlight(y.s)| ==> InFlight(y.s)[i].request != y.s.toReuse[0]
  {
    RunKeeps(requests, buffers, acts);
    var y := Run(Start(requests, buffers), acts);
    if y.s.returning.HasFreed? && y.s.toReuse != [] {
      ReuseSettled(y, requests, buffers);
    }
  }

  /** `ReuseRequest` waits only for the camera thread to finish a completion it has begun. */
  lemma ReuseWaitsForCamera(requests: nat, buffers: nat, acts: seq<Action>)
    ensures var y := Run(Start(requests, buffers), acts);
      y.s.returning.HasFreed? && y.s.toReuse == [] ==> y.s.completing.BetweenQueues?
  {
    hide Run, Ordered, Separate, Fifo;
    RunKeeps(requests, buffers, acts);
  }

  /** Over a whole run no more frames are skipped than there are requests beyond the encoder's input
      buffers, and none at all if there are as many buffers as requests. */
  lemma SkipsAreBounded(requests: nat, buffers: nat, acts: seq<Action>)
    ensures |Run(Start(requests, buffers), acts).log.skipped| <= if requests > buffers then requests - buffers else 0
  {
    hide Run, Ordered, Separate, Fifo;
    RunKeeps(requests, buffers, acts);
  }

  /** Once the pipeline has drained, each skip has retired one request for good; the camera is left
      with all the others, at least the smaller of `requests` and `buffers`, less those cancelled. */
  lemma DrainedPipeline(requests: nat, buffers: nat, acts: seq<Action>)
    ensures var y := Run(Start(requests, buffers), acts);
      var s := y.s;
      s.completed == [] && s.device == [] && s.encoding.NotEncoding? && s.returning.NotReturning? ==>
        && |s.atCamera| + |y.log.skipped| + y.log.cancelled == requests
        && |s.atCamera| + y.log.cancelled >= (if requests < buffers then requests else buffers)
  {
    hide Run, Ordered, Separate, Fifo;
    RunKeeps(requests, buffers, acts);
  }

  // ----- If the device returned its inputs out of order ---------------------------------------------

  /** `ReturnInput`, were it input `i` that the device returned. */
  function ReturnAt(y: System, i: nat): System
    requires i < |y.s.device|
  {
    var s := y.s;
    if !s.returning.NotReturning? then y
    else System(s.(device := s.device[..i] + s.device[i + 1..], returning := HasReturned(s.device[i].index)),
                y.log.(encoded := y.log.encoded + [s.device[i].frame.number]))
  }

  /** The camera has been given a frame buffer that the device still holds. */
  ghost predicate Overwrites(s: State) {
    exists j :: 0 <= j < |s.device| && s.device[j].frame.request in s.atCamera
  }

  /** The encoder's thread goes on from a returned input to the next wait. */
  function Reuse(): seq<Action> {
    [FreeIndex, PopReuse, Requeue]
  }

  lemma {:induction false} RunOn(y: System, a: seq<Action>, b: seq<Action>)
    ensures Run(y, a + b) == Run(Run(y, a), b)
  {
    hide Next;
    if b == [] {
      assert a + b == a;
    } else {
      assert (a + b)[..|a + b| - 1] == a + b[..|b| - 1];
      RunOn(y, a, b[..|b| - 1]);
    }
  }

  lemma RunThree(y: System, a: Action, b: Action, c: Action)
    ensures Run(y, [a, b, c]) == Next(Next(Next(y, a), b), c)
  {
    hide Next;
    assert [a, b, c][..2] == [a, b] && [a, b][..1] == [a] && [a][..0] == [];
    assert Run(y, [a]) == Next(y, a);
    assert Run(y, [a, b]) == Next(Run(y, [a]), b);
  }

  /** Strictly increasing numbers keep their distance from the end. */
  lemma {:induction false} IncreasingBelow(s: seq<nat>, i: nat, n: nat)
    requires Increasing(s) && i < |s| && s[|s| - 1] < n
    ensures s[i] + (|s| - i) <= n
    decreases |s| - i
  {
    if i == |s| - 1 {
    } else {
      IncreasingBelow(s, i + 1, n);
    }
  }

  /** As long as no frame has been skipped, the frame the device has held longest is that of the request
      to be reused next. */
  lemma HeadIsNext(y: System, requests: nat, buffers: nat)
    requires Inv(y, requests, buffers) && y.log.skipped == {} && y.s.returning.NotReturning?
    requires y.s.device != [] && y.s.toReuse != []
    ensures y.s.device[0].frame.request == y.s.toReuse[0]
  {
    hide Separate;
    var flight := InFlight(y.s);
    var all := y.log.encoded + Numbers(flight);
    var k, last := |y.log.encoded|, |all| - 1;
    assert all[last] == flight[|flight| - 1].number;
    assert all[k] == flight[0].number && flight[0] == y.s.device[0].frame;
    IncreasingAhead(all, k);
    IncreasingBelow(all, k, |y.log.frames|);
  }

  lemma Reused(y: System, i: nat)
    requires i < |y.s.device| && y.s.returning.NotReturning? && y.s.toReuse != []
    ensures var s := Run(ReturnAt(y, i), Reuse()).s;
      s.device == y.s.device[..i] + y.s.device[i + 1..] && s.atCamera == y.s.atCamera + {y.s.toReuse[0]}
  {
    RunThree(ReturnAt(y, i), FreeIndex, PopReuse, Requeue);
  }

  lemma RunFirst(y: System)
    requires y.s.device != []
    ensures Run(y, [ReturnInput]) == ReturnAt(y, 0)
  {
    assert [ReturnInput][..0] == [];
  }

  lemma DeviceFirst(s: State, j: nat)
    requires j < |s.device|
    ensures j < |InFlight(s)| && InFlight(s)[j] == s.device[j].frame
  {
  }

  lemma InOrderIsSafe(requests: nat, buffers: nat, acts: seq<Action>)
    ensures var y := Run(Start(requests, buffers), acts);
      y.s.device != [] ==> !Overwrites(Run(ReturnAt(y, 0), Reuse()).s)
  {
    hide Run, InFlight;
    var y := Run(Start(requests, buffers), acts);
    if y.s.device != [] {
      var next := [ReturnInput] + Reuse();
      RunOn(Start(requests, buffers), acts, next);
      RunOn(y, [ReturnInput], Reuse());
      RunFirst(y);
      var z := Run(y, next);
      forall j | 0 <= j < |z.s.device| ensures z.s.device[j].frame.request !in z.s.atCamera {
        CameraNeverOverwrites(requests, buffers, acts + next, j);
        DeviceFirst(z.s, j);
      }
    }
  }

  /** The recycling relies on the order in which the device returns its inputs, and on nothing less: in
      every reachable state without a skipped frame, if the device returned input `i` next, the camera
      would be given a buffer that the device still holds exactly if `i` is not the first. */
  lemma OrderIsNeeded(requests: nat, buffers: nat, acts: seq<Action>, i: nat)
    ensures var y := Run(Start(requests, buffers), acts);
      y.log.skipped == {} && y.s.returning.NotReturning? && i < |y.s.device| && y.s.toReuse != [] ==>
        (Overwrites(Run(ReturnAt(y, i), Reuse()).s) <==> i > 0)
  {
    hide Run, Inv, InFlight;
    RunKeeps(requests, buffers, acts);
    var y := Run(Start(requests, buffers), acts);
    if y.log.skipped == {} && y.s.returning.NotReturning? && i < |y.s.device| && y.s.toReuse != [] {
      Reused(y, i);
      var s := Run(ReturnAt(y, i), Reuse()).s;
      if i == 0 {
        InOrderIsSafe(requests, buffers, acts);
      } else {
        HeadIsNext(y, requests, buffers);
        assert s.device[0] == y.s.device[0];
      }
    }
  }

  /** Two requests and two buffers, the first frame in the hands of the streamer thread. */
  function FirstTaken(): System {
    System(State({1}, [], [0], [0, 1], [], NotCompleting, HasFrame(Frame(0, 0)), NotReturning), Log([0], [], {}, 0, 0))
  }

  /** The first frame with the device, the second request completed and not yet published. */
  function SecondCompleted(): System {
    System(State({}, [Frame(1, 1)], [0], [1], [Input(0, Frame(0, 0))], BetweenQueues(1), NotEncoding, NotReturning),
           Log([0, 1], [], {}, 0, 0))
  }

  lemma ToFirstTaken()
    ensures Run(Start(2, 2), [Complete(0), Publish, TakeCompleted]) == FirstTaken()
  {
    RunThree(Start(2, 2), Complete(0), Publish, TakeCompleted);
    assert Below(2) - {0} == {1};
  }

  lemma ToSecondCompleted()
    ensures Run(FirstTaken(), [TakeIndex, QueueInput, Complete(1)]) == SecondCompleted()
  {
    RunThree(FirstTaken(), TakeIndex, QueueInput, Complete(1));
    assert {1} - {1} == {};
  }

  lemma ToBothWithDevice()
    ensures var y := Run(SecondCompleted(), [Publish, TakeCompleted, TakeIndex] + [QueueInput]);
      y.log.skipped == {} && y.s.returning.NotReturning? && |y.s.device| == 2 && y.s.toReuse != []
  {
    RunOn(SecondCompleted(), [Publish, TakeCompleted, TakeIndex], [QueueInput]);
    RunThree(SecondCompleted(), Publish, TakeCompleted, TakeIndex);
    var y := Run(SecondCompleted(), [Publish, TakeCompleted, TakeIndex]);
    assert [QueueInput][..0] == [];
    assert Run(y, [QueueInput]) == Next(y, QueueInput);
  }

  /** Such states are reached: with two requests and two buffers, both frames with the device. */
  lemma OutOfOrderRun() returns (acts: seq<Action>)
    ensures var y := Run(Start(2, 2), acts);
      && y.log.skipped == {} && y.s.returning.NotReturning? && |y.s.device| == 2 && y.s.toReuse != []
      && Overwrites(Run(ReturnAt(y, 1), Reuse()).s)
  {
    hide Overwrites, Run, Start, FirstTaken, SecondCompleted;
    var a, b := [Complete(0), Publish, TakeCompleted], [TakeIndex, QueueInput, Complete(1)];
    var c := [Publish, TakeCompleted, TakeIndex] + [QueueInput];
    ToFirstTaken();
    ToSecondCompleted();
    ToBothWithDevice();
    RunOn(Start(2, 2), a, b);
    RunOn(Start(2, 2), a + b, c);
    acts := a + b + c;
    OrderIsNeeded(2, 2, acts, 1);
  }

  // ----- The input buffers --------------------------------------------------------------------------

  function DeviceIndices(device: seq<Input>): seq<nat> {
    seq(|device|, i requires 0 <= i < |device| => device[i].index)
  }

  /** Every input buffer index: free, taken by `EncodeBuffer`, with the device, or on its way back. */
  function Indices(s: State): multiset<nat> {
    multiset(s.free) + multiset(DeviceIndices(s.device))
    + (if s.encoding.HasIndex? then multiset{s.encoding.input.index} else multiset{})
    + (if s.returning.HasReturned? then multiset{s.returning.index} else multiset{})
  }

  lemma MultisetHead(s: seq<nat>)
    requires s != []
    ensures multiset(s) == multiset{s[0]} + multiset(s[1..])
  {
    assert s == [s[0]] + s[1..];
  }

  lemma TakeMovesIndex(s: State, number: nat)
    ensures Indices(Act(s, TakeIndex, number)) == Indices(s)
  {
    hide DeviceIndices;
    if s.free != [] {
      MultisetHead(s.free);
    }
  }

  lemma DeviceIndicesAppend(device: seq<Input>, input: Input)
    ensures DeviceIndices(device + [input]) == DeviceIndices(device) + [input.index]
  {
  }

  lemma QueueMovesIndex(s: State, number: nat)
    ensures Indices(Act(s, QueueInput, number)) == Indices(s)
  {
    hide DeviceIndices;
    if s.encoding.HasIndex? {
      DeviceIndicesAppend(s.device, s.encoding.input);
    }
  }

  lemma DeviceIndicesHead(device: seq<Input>)
    requires device != []
    ensures DeviceIndices(device) == [device[0].index] + DeviceIndices(device[1..])
  {
  }

  lemma ReturnMovesIndex(s: State, number: nat)
    ensures Indices(Act(s, ReturnInput, number)) == Indices(s)
  {
    hide DeviceIndices;
    if s.device != [] {
      DeviceIndicesHead(s.device);
    }
  }

  lemma IndicesMove(s: State, a: Action, number: nat)
    ensures Indices(Act(s, a, number)) == Indices(s)
  {
    hide DeviceIndices;
    match a
    case TakeIndex => TakeMovesIndex(s, number);
    case QueueInput => QueueMovesIndex(s, number);
    case ReturnInput => ReturnMovesIndex(s, number);
    case _ =>
  }

  lemma StartIndices(requests: nat, buffers: nat)
    ensures Indices(Start(requests, buffers).s) == multiset(seq(buffers, i => i))
  {
    assert DeviceIndices([]) == [];
  }

  /** Each of the encoder's input buffers is in exactly one place, so none is queued with the device
      while the device still holds it. */
  lemma {:induction false} BuffersConserved(requests: nat, buffers: nat, acts: seq<Action>)
    ensures Indices(Run(Start(requests, buffers), acts).s) == multiset(seq(buffers, i => i))
  {
    hide Act, Indices, Record;
    if acts == [] {
      StartIndices(requests, buffers);
    } else {
      var before := acts[..|acts| - 1];
      BuffersConserved(requests, buffers, before);
      var y := Run(Start(requests, buffers), before);
      IndicesMove(y.s, acts[|acts| - 1], |y.log.frames|);
    }
  }

  /** The input buffers made available along a run, in order, beginning with those free at first. */
  function Offered(y: System, acts: seq<Action>): seq<nat> {
    if acts == [] then y.s.free else
    var before := Run(y, acts[..|acts| - 1]).s;
    Offered(y, acts[..|acts| - 1])
    + if acts[|acts| - 1].FreeIndex? && before.returning.HasReturned? then [before.returning.index] else []
  }

  /** Those that took a frame, in order. */
  function Used(y: System, acts: seq<Action>): seq<nat> {
    if acts == [] then [] else
    var before := Run(y, acts[..|acts| - 1]).s;
    Used(y, acts[..|acts| - 1])
    + if acts[|acts| - 1].TakeIndex? && before.encoding.HasFrame? && before.free != [] then [before.free[0]] else []
  }

  lemma OfferedStep(offered: seq<nat>, used: seq<nat>, s: State, a: Action, number: nat)
    requires offered == used + s.free
    ensures offered + (if a.FreeIndex? && s.returning.HasReturned? then [s.returning.index] else [])
         == used + (if a.TakeIndex? && s.encoding.HasFrame? && s.free != [] then [s.free[0]] else [])
            + Act(s, a, number).free
  {
    if a.TakeIndex? && s.encoding.HasFrame? && s.free != [] {
      assert s.free == [s.free[0]] + s.free[1..];
    }
  }

  /** The buffers take frames in the order in which they became available. */
  lemma {:induction false} BuffersTakeTurns(y: System, acts: seq<Action>)
    ensures Offered(y, acts) == Used(y, acts) + Run(y, acts).s.free
  {
    hide Act, Record;
    if acts == [] {
    } else {
      var before, a := acts[..|acts| - 1], acts[|acts| - 1];
      BuffersTakeTurns(y, before);
      var z := Run(y, before);
      OfferedStep(Offered(y, before), Used(y, before), z.s, a, |z.log.frames|);
    }
  }
}
