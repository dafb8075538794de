/** The camera wrapper, the encoder wrapper and the streamer that joins them, as objects. Here their
    thread loops take turns, each running until it would block; every step they make is a step of
    `Pipeline`, whose theorems therefore hold of them. */
module PipelineHeap {
  import Bits
  import opened Pipeline

  datatype Result<T> = Ok(value: T) | Error(message: string)

  // ----- CameraWrapper ------------------------------------------------------------------------------

  function Flatten(requests: seq<seq<nat>>): seq<nat> {
    if requests == [] then [] else Flatten(requests[..|requests| - 1]) + requests[|requests| - 1]
  }

  lemma FlattenNothing()
    ensures Flatten([]) == []
  {
  }

  lemma FlattenAppend(requests: seq<seq<nat>>, request: seq<nat>)
    ensures Flatten(requests + [request]) == Flatten(requests) + request
  {
    assert (requests + [request])[..|requests|] == requests;
  }

  lemma WholeRequests(requests: nat, streams: nat, extra: nat)
    requires extra < streams
    ensures (requests * streams + extra) % streams == extra
  {
    Bits.ModUnique(requests * streams + extra, streams, requests, extra);
  }

  /** `makeRequests`: one frame buffer per stream for each request, until the frame buffers run out.
      It succeeds exactly if they run out between two requests; then each frame buffer is in one
      request, in order. */
  method MakeRequests(streams: nat, frameBuffers: seq<nat>) returns (r: Result<seq<seq<nat>>>)
    requires streams >= 1
    ensures r.Ok? <==> |frameBuffers| % streams == 0
    ensures r.Ok? ==>
      && Flatten(r.value) == frameBuffers
      && |r.value| * streams == |frameBuffers|
      && forall i :: 0 <= i < |r.value| ==> |r.value[i]| == streams
  {
    hide Flatten;
    FlattenNothing();
    var freeBuffers := frameBuffers;
    var requests: seq<seq<nat>> := [];
    while true
      invariant Flatten(requests) + freeBuffers == frameBuffers
      invariant |requests| * streams + |freeBuffers| == |frameBuffers|
      invariant forall i :: 0 <= i < |requests| ==> |requests[i]| == streams
      decreases |freeBuffers|
    {
      if freeBuffers == [] {
        WholeRequests(|requests|, streams, 0);
        return Ok(requests);
      }
      var request := [freeBuffers[0]];
      freeBuffers := freeBuffers[1..];
      var stream := 1;
      while stream < streams
        invariant 1 <= stream <= streams && |request| == stream
        invariant Flatten(requests) + (request + freeBuffers) == frameBuffers
        invariant |requests| * streams + stream + |freeBuffers| == |frameBuffers|
      {
        if freeBuffers == [] {
          WholeRequests(|requests|, streams, stream);
          return Error("concurrent streams need matching numbers of buffers");
        }
        assert request + freeBuffers == (request + [freeBuffers[0]]) + freeBuffers[1..];
        request, freeBuffers := request + [freeBuffers[0]], freeBuffers[1..];
        stream := stream + 1;
      }
      FlattenAppend(requests, request);
      requests := requests + [request];
    }
  }

  class CameraWrapper {
    var queued: set<nat>              // requests queued with camera_
    var completedRequestsQueue: seq<Frame>
    var requestsToReuseQueue: seq<nat>
    var completions: nat              // numbers the frames; nothing depends on it

    /** `StartCamera`, lines 140-144. */
    constructor (requests: nat)
      ensures queued == Below(requests) && completedRequestsQueue == [] && requestsToReuseQueue == []
      ensures completions == 0
    {
      queued, completedRequestsQueue, requestsToReuseQueue, completions := {}, [], [], 0;
      new;
      var request := 0;
      while request < requests
        invariant 0 <= request <= requests && queued == Below(request)
        invariant completedRequestsQueue == [] && requestsToReuseQueue == [] && completions == 0
      {
        queued := queued + {request};
        request := request + 1;
      }
    }

    /** `requestComplete`. */
    method RequestComplete(request: nat, cancelled: bool)
      requires request in queued
      modifies this
      ensures queued == old(queued) - {request}
      ensures cancelled ==>
        completedRequestsQueue == old(completedRequestsQueue) && requestsToReuseQueue == old(requestsToReuseQueue)
        && completions == old(completions)
      ensures !cancelled ==>
        && completedRequestsQueue == old(completedRequestsQueue) + [Frame(request, old(completions))]
        && requestsToReuseQueue == old(requestsToReuseQueue) + [request]
        && completions == old(completions) + 1
    {
      queued := queued - {request};
      if cancelled {
        return;
      }
      completedRequestsQueue := completedRequestsQueue + [Frame(request, completions)];
      requestsToReuseQueue := requestsToReuseQueue + [request];
      completions := completions + 1;
    }

    /** `WaitForCompletedRequest`. */
    method WaitForCompletedRequest() returns (request: Frame)
      requires completedRequestsQueue != []
      modifies `completedRequestsQueue
      ensures [request] + completedRequestsQueue == old(completedRequestsQueue)
    {
      request := completedRequestsQueue[0];
      completedRequestsQueue := completedRequestsQueue[1..];
    }

    /** `ReuseRequest`. */
    method ReuseRequest() returns (request: nat)
      requires requestsToReuseQueue != []
      modifies `requestsToReuseQueue, `queued
      ensures [request] + requestsToReuseQueue == old(requestsToReuseQueue) && queued == old(queued) + {request}
    {
      request := requestsToReuseQueue[0];
      requestsToReuseQueue := requestsToReuseQueue[1..];
      queued := queued + {request};
    }
  }

  // ----- H264Encoder --------------------------------------------------------------------------------

  class H264Encoder {
    var availableInputBuffers: seq<nat>
    var device: seq<Input>

    /** Lines 112-115. */
    constructor (count: nat)
      ensures availableInputBuffers == seq(count, i => i) && device == []
    {
      availableInputBuffers, device := [], [];
      new;
      var i := 0;
      while i < count
        invariant 0 <= i <= count && availableInputBuffers == seq(i, k => k) && device == []
      {
        availableInputBuffers := availableInputBuffers + [i];
        i := i + 1;
      }
    }

    /** `EncodeBuffer`: takes a free input buffer, or skips the frame. */
    method EncodeBuffer(frame: Frame) returns (queued: bool)
      modifies this
      ensures queued <==> old(availableInputBuffers) != []
      ensures !queued ==> availableInputBuffers == [] && device == old(device)
      ensures queued ==>
        && availableInputBuffers == old(availableInputBuffers)[1..]
        && device == old(device) + [Input(old(availableInputBuffers)[0], frame)]
    {
      if availableInputBuffers == [] {
        return false;
      }
      var index := availableInputBuffers[0];
      availableInputBuffers := availableInputBuffers[1..];
      device := device + [Input(index, frame)];
      return true;
    }
  }

  // ----- LibcameraStreamer --------------------------------------------------------------------------

  function Min(a: nat, b: nat): nat {
    if a < b then a else b
  }

  lemma DeviceInFlight(s: State)
    ensures |s.device| <= |InFlight(s)|
    ensures forall i :: 0 <= i < |s.device| ==> InFlight(s)[i] == s.device[i].frame
  {
  }

  /** Once an input buffer is free again, there is a request to reuse, neither with the camera nor held
      by the encoder. */
  lemma NextReuse(requests: nat, buffers: nat, acts: seq<Action>)
    requires var s := Run(Start(requests, buffers), acts).s; s.returning.HasFreed? && s.completing.NotCompleting?
    ensures var s := Run(Start(requests, buffers), acts).s;
      && s.toReuse != [] && s.toReuse[0] !in s.atCamera
      && forall input :: input in s.device ==> input.frame.request != s.toReuse[0]
  {
    hide Run, Start, Ordered, Counts, InFlight;
    ReuseWaitsForCamera(requests, buffers, acts);
    ReusesInOrder(requests, buffers, acts);
    RunKeeps(requests, buffers, acts);
    DeviceInFlight(Run(Start(requests, buffers), acts).s);
  }

  class LibcameraStreamer {
    const cameraWrapper: CameraWrapper
    const encoderWrapper: H264Encoder

    /** The run of `Pipeline` made so far. */
    ghost const requests: nat
    ghost const buffers: nat
    ghost var acts: seq<Action>

    ghost function View(): State
      reads this, cameraWrapper, encoderWrapper
    {
      State(cameraWrapper.queued, cameraWrapper.completedRequestsQueue, cameraWrapper.requestsToReuseQueue,
            encoderWrapper.availableInputBuffers, encoderWrapper.device, NotCompleting, NotEncoding, NotReturning)
    }

    ghost function History(): Pipeline.System
      reads this
    {
      Run(Start(requests, buffers), acts)
    }

    ghost predicate Valid()
      reads this, cameraWrapper, encoderWrapper
    {
      History().s == View() && |History().log.frames| == cameraWrapper.completions
    }

    constructor (requests: nat, buffers: nat)
      ensures Valid() && acts == [] && this.requests == requests && this.buffers == buffers
      ensures fresh(cameraWrapper) && fresh(encoderWrapper)
    {
      cameraWrapper := new CameraWrapper(requests);
      encoderWrapper := new H264Encoder(buffers);
      this.requests, this.buffers, acts := requests, buffers, [];
    }

    ghost method Step(a: Action)
      modifies `acts
      ensures acts == old(acts) + [a] && History() == Next(old(History()), a)
    {
      acts := acts + [a];
      assert acts[..|acts| - 1] == old(acts);
    }

    /** The camera thread. */
    method OnRequestComplete(request: nat, cancelled: bool)
      requires Valid() && request in cameraWrapper.queued
      modifies this, cameraWrapper
      ensures Valid()
      ensures acts == old(acts) + if cancelled then [Cancel(request)] else [Complete(request), Publish]
    {
      hide Run, Start;
      cameraWrapper.RequestComplete(request, cancelled);
      if cancelled {
        Step(Cancel(request));
      } else {
        Step(Complete(request));
        Step(Publish);
      }
    }

    /** One round of `completedRequestsProcessor`. */
    method ProcessCompletedRequest() returns (queued: bool)
      requires Valid() && cameraWrapper.completedRequestsQueue != []
      modifies this, cameraWrapper`completedRequestsQueue, encoderWrapper
      ensures Valid()
      ensures acts == old(acts) + if queued then [TakeCompleted, TakeIndex, QueueInput] else [TakeCompleted, TakeIndex]
      ensures queued <==> old(encoderWrapper.availableInputBuffers) != []
      ensures cameraWrapper.completedRequestsQueue == old(cameraWrapper.completedRequestsQueue)[1..]
      ensures |encoderWrapper.device| == old(|encoderWrapper.device|) + One(queued)
      ensures |encoderWrapper.availableInputBuffers| + One(queued) == old(|encoderWrapper.availableInputBuffers|)
    {
      hide Run, Start;
      var request := cameraWrapper.WaitForCompletedRequest();
      Step(TakeCompleted);
      queued := encoderWrapper.EncodeBuffer(request);
      Step(TakeIndex);
      if queued {
        Step(QueueInput);
      }
    }

    /** `completedRequestsProcessor` until it would wait: it queues as many frames as there are free
        input buffers and skips the rest. */
    method CompletedRequestsProcessor() returns (skipped: nat)
      requires Valid()
      modifies this, cameraWrapper`completedRequestsQueue, encoderWrapper
      ensures Valid() && cameraWrapper.completedRequestsQueue == []
      ensures var waiting := old(|cameraWrapper.completedRequestsQueue|);
        var free := old(|encoderWrapper.availableInputBuffers|);
        && |encoderWrapper.device| == old(|encoderWrapper.device|) + Min(waiting, free)
        && skipped == waiting - Min(waiting, free)
    {
      hide Run, Start;
      skipped := 0;
      ghost var done := 0;
      while cameraWrapper.completedRequestsQueue != []
        invariant Valid()
        invariant done + |cameraWrapper.completedRequestsQueue| == old(|cameraWrapper.completedRequestsQueue|)
        invariant |encoderWrapper.device| + |encoderWrapper.availableInputBuffers|
               == old(|encoderWrapper.device| + |encoderWrapper.availableInputBuffers|)
        invariant |encoderWrapper.device|
          == old(|encoderWrapper.device|) + Min(done, old(|encoderWrapper.availableInputBuffers|))
        invariant skipped == done - Min(done, old(|encoderWrapper.availableInputBuffers|))
        decreases |cameraWrapper.completedRequestsQueue|
      {
        var queued := ProcessCompletedRequest();
        skipped := skipped + if queued then 0 else 1;
        done := done + 1;
      }
    }

    /** `pollReadyToReuseOutputBuffers` when the device has an input to return. The wait in
        `ReuseRequest` ends at once: there is a request to reuse. */
    method PollReadyToReuseOutputBuffers() returns (reused: nat)
      requires Valid() && encoderWrapper.device != []
      modifies this, cameraWrapper`requestsToReuseQueue, cameraWrapper`queued, encoderWrapper
      ensures Valid()
      ensures acts == old(acts) + [ReturnInput, FreeIndex, PopReuse, Requeue]
      ensures encoderWrapper.device == old(encoderWrapper.device)[1..]
      ensures encoderWrapper.availableInputBuffers
           == old(encoderWrapper.availableInputBuffers + [encoderWrapper.device[0].index])
      ensures cameraWrapper.queued == old(cameraWrapper.queued) + {reused}
      ensures reused !in old(cameraWrapper.queued)
      ensures forall input :: input in encoderWrapper.device ==> input.frame.request != reused
    {
      hide Run, Start;
      var index := encoderWrapper.device[0].index;
      encoderWrapper.device := encoderWrapper.device[1..];
      Step(ReturnInput);
      encoderWrapper.availableInputBuffers := encoderWrapper.availableInputBuffers + [index];
      Step(FreeIndex);
      NextReuse(requests, buffers, acts);
      reused := cameraWrapper.ReuseRequest();
      Step(PopReuse);
      Step(Requeue);
    }

    /** `pollEncoder` until the device has nothing more to return. */
    method PollEncoder()
      requires Valid()
      modifies this, cameraWrapper`requestsToReuseQueue, cameraWrapper`queued, encoderWrapper
      ensures Valid() && encoderWrapper.device == []
      ensures |cameraWrapper.queued| == old(|cameraWrapper.queued|) + old(|encoderWrapper.device|)
    {
      hide Run, Start;
      while encoderWrapper.device != []
        invariant Valid()
        invariant |cameraWrapper.queued| + |encoderWrapper.device|
          == old(|cameraWrapper.queued| + |encoderWrapper.device|)
        decreases |encoderWrapper.device|
      {
        var _ := PollReadyToReuseOutputBuffers();
      }
    }
  }
}
