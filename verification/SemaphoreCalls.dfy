/** One call of `tryWait` or `wait` from its beginning to its answer: what its timeout means, and how
    long it can take. */
module SemaphoreCalls {
  import opened Semaphore

  // ----- What a timeout means ---------------------------------------------------------------------

  /** Where the waiter can be in a call that asked for `request`: only a `wait` with a timeout other than
      0 goes to sleep, and it does so with that timeout. */
  predicate Serves(w: Waiter, request: Request) {
    match w
    case Idle(_) => true
    case Look(r) => r == request
    case Claim => true
    case Spin(timeout, _) => request == Wait(timeout)
    case Decrement(timeout) => request == Wait(timeout)
    case Sleep(timeout) => request == Wait(timeout) && timeout != 0
    case _ => request.Wait?
  }

  /** The waiter has given up, or is about to. */
  predicate GivesUp(w: Waiter) {
    BackingOut(w) || w == Idle(Denied)
  }

  /** The caller is ready to sleep for a token. */
  predicate Patient(request: Request) {
    request.Wait? && request.timeout != 0
  }

  /** A patient caller gives up only when the kernel has let it down. */
  lemma ServesStep(s: State, request: Request, a: Action)
    requires Serves(s.waiter, request) && !a.Begin? && Act(s, a).Ok?
    ensures var w := Act(s, a).state.waiter;
      && Serves(w, request)
      && (Patient(request) && GivesUp(w) && !GivesUp(s.waiter) ==> a == Waits(true) && s.waiter.Sleep?)
  {
  }

  /** `acts` begins a call, and no other. */
  ghost predicate OneCall(request: Request, acts: seq<Action>) {
    && acts != [] && acts[0] == Begin(request)
    && forall k :: 1 <= k < |acts| ==> !acts[k].Begin?
  }

  /** After `k` of `acts` the waiter is asleep. */
  ghost predicate AsleepAfter(r: Ledger, acts: seq<Action>, k: nat) {
    k <= |acts| && Run(r, acts[..k]).Running? && Run(r, acts[..k]).ledger.s.waiter.Sleep?
  }

  /** Along `acts` a kernel wait has failed or timed out. */
  ghost predicate KernelFailed(r: Ledger, acts: seq<Action>) {
    exists k: nat :: k < |acts| && AsleepAfter(r, acts, k) && acts[k] == Waits(true)
  }

  lemma KernelFailedStill(r: Ledger, acts: seq<Action>, a: Action)
    requires KernelFailed(r, acts)
    ensures KernelFailed(r, acts + [a])
  {
    hide Run;
    var k: nat :| k < |acts| && AsleepAfter(r, acts, k) && acts[k] == Waits(true);
    assert (acts + [a])[..k] == acts[..k];
    assert AsleepAfter(r, acts + [a], k);
  }

  lemma KernelFailsNow(r: Ledger, acts: seq<Action>)
    requires Run(r, acts).Running? && Run(r, acts).ledger.s.waiter.Sleep?
    ensures KernelFailed(r, acts + [Waits(true)])
  {
    hide Run;
    assert (acts + [Waits(true)])[..|acts|] == acts;
    assert AsleepAfter(r, acts + [Waits(true)], |acts|);
  }

  lemma Begun(r: Ledger, request: Request)
    requires r.s.waiter.Idle?
    ensures Next(r, Begin(request)) == Running(r.(s := r.s.(waiter := Look(request))))
    ensures Serves(Look(request), request)
  {
  }

  /** Over one call, whatever the other thread does: exactly an answer of true has consumed a token, and
      a caller with a timeout other than 0 gives up only after a kernel wait of this call has failed. */
  lemma {:induction false} CallAnswers(r: Ledger, request: Request, acts: seq<Action>)
    requires r.s.waiter.Idle? && OneCall(request, acts) && Run(r, acts).Running?
    ensures var r' := Run(r, acts).ledger;
      && Serves(r'.s.waiter, request)
      && r'.granted == r.granted + (if r'.s.waiter == Idle(Granted) then 1 else 0)
      && (Patient(request) && GivesUp(r'.s.waiter) ==> KernelFailed(r, acts))
    decreases |acts|
  {
    hide KernelFailed, Serves;
    var before, a := acts[..|acts| - 1], acts[|acts| - 1];
    if |acts| == 1 {
      assert before == [];
      Begun(r, request);
    } else {
      CallAnswers(r, request, before);
      assert acts == before + [a];
      var was := Run(r, before).ledger;
      ServesStep(was.s, request, a);
      if GivesUp(was.s.waiter) && Patient(request) {
        KernelFailedStill(r, before, a);
      } else if was.s.waiter.Sleep? && a == Waits(true) {
        KernelFailsNow(r, before);
      }
    }
  }

  /** At no instant along `acts` is the waiter asleep. */
  ghost predicate NeverAsleep(r: Ledger, acts: seq<Action>) {
    forall k: nat :: k <= |acts| ==> !AsleepAfter(r, acts, k)
  }

  lemma RunNothing(r: Ledger, acts: seq<Action>)
    ensures Run(r, acts[..0]) == Running(r)
  {
  }

  /** `tryWait`, and a `wait` with timeout 0, never go to sleep. */
  lemma NeverSleeps(r: Ledger, request: Request, acts: seq<Action>)
    requires r.s.waiter.Idle? && OneCall(request, acts) && !Patient(request)
    ensures NeverAsleep(r, acts)
  {
    hide Run;
    forall k: nat | k <= |acts| ensures !AsleepAfter(r, acts, k) {
      if k == 0 {
        RunNothing(r, acts);
      } else if Run(r, acts[..k]).Running? {
        CallAnswers(r, request, acts[..k]);
      }
    }
  }

  /** Both meanings of the timeout of a `wait`. */
  lemma TimeoutMeans(r: Ledger, timeout: int, acts: seq<Action>)
    requires r.s.waiter.Idle? && OneCall(Wait(timeout), acts) && Run(r, acts).Running?
    ensures timeout == 0 ==> NeverAsleep(r, acts)
    ensures timeout != 0 && Run(r, acts).ledger.s.waiter == Idle(Denied) ==> KernelFailed(r, acts)
  {
    if timeout == 0 {
      NeverSleeps(r, Wait(timeout), acts);
    }
    CallAnswers(r, Wait(timeout), acts);
  }

  // ----- The spinning -----------------------------------------------------------------------------

  /** How many of its own steps the waiter is from sleep, at least. */
  function SleepDistance(w: Waiter): nat {
    match w
    case Look(_) => SPINS + 3
    case Spin(_, left) => left + 2
    case Decrement(_) => 1
    case _ => 0
  }

  /** The waiter is on its way to sleep or has got there. */
  predicate BeforeSleep(w: Waiter) {
    w.Look? || w.Spin? || w.Decrement? || w.Sleep?
  }

  lemma DistanceStep(s: State, a: Action)
    requires !a.Begin? && Act(s, a).Ok? && BeforeSleep(Act(s, a).state.waiter)
    ensures BeforeSleep(s.waiter)
    ensures SleepDistance(Act(s, a).state.waiter) + (if a.Waits? then 1 else 0) >= SleepDistance(s.waiter)
  {
  }

  lemma {:induction false} StepsAppend(acts: seq<Action>, a: Action)
    ensures WaiterSteps(acts + [a]) == WaiterSteps(acts) + if a.Waits? then 1 else 0
  {
    if acts == [] {
      assert [a][1..] == [];
    } else {
      assert (acts + [a])[1..] == acts[1..] + [a];
      StepsAppend(acts[1..], a);
    }
  }

  lemma LookIsFar(request: Request)
    ensures SleepDistance(Look(request)) == SPINS + 3
  {
  }

  lemma {:induction false} DistanceKept(r: Ledger, request: Request, acts: seq<Action>)
    requires r.s.waiter.Idle? && OneCall(request, acts) && Run(r, acts).Running?
    requires BeforeSleep(Run(r, acts).ledger.s.waiter)
    ensures SleepDistance(Run(r, acts).ledger.s.waiter) + WaiterSteps(acts) >= SPINS + 3
    decreases |acts|
  {
    hide BeforeSleep, SleepDistance, WaiterSteps;
    var before, a := acts[..|acts| - 1], acts[|acts| - 1];
    assert acts == before + [a];
    if |acts| == 1 {
      assert before == [];
      Begun(r, request);
      LookIsFar(request);
    } else {
      DistanceStep(Run(r, before).ledger.s, a);
      DistanceKept(r, request, before);
      StepsAppend(before, a);
    }
  }

  /** Nobody goes to sleep who has not looked for a token 1025 times and then asked for one. */
  lemma SpinsBeforeSleep(r: Ledger, request: Request, acts: seq<Action>)
    requires r.s.waiter.Idle? && OneCall(request, acts)
    ensures AsleepAfter(r, acts, |acts|) ==> WaiterSteps(acts) >= 1024 + 3
  {
    hide Run;
    assert acts[..|acts|] == acts;
    if AsleepAfter(r, acts, |acts|) {
      DistanceKept(r, request, acts);
    }
  }

  // ----- Waiting for a token ----------------------------------------------------------------------

  /** If the waiter is asleep, it is with the timeout that the caller chose; without patience it never is. */
  predicate SleepsAsAsked(w: Waiter, patience: Patience) {
    w.Sleep? ==>
      match patience
      case Try => false
      case Forever => w.timeout == -1
      case Within(timeout) => w.timeout == timeout != 0
  }

  lemma ServesPatience(w: Waiter, patience: Patience)
    requires Serves(w, Asks(patience))
    ensures SleepsAsAsked(w, patience)
  {
  }

  /** A caller that waits for ever is not refused; another gives up for the reasons of the semaphore. */
  lemma WaitStepServes(s: State, kernelFails: bool, patience: Patience)
    requires Serves(s.waiter, Asks(patience)) && !s.waiter.Idle?
    ensures var o := WaitStep(s, kernelFails, patience.Forever?);
      o.Ok? ==>
        && Serves(o.state.waiter, Asks(patience))
        && (o.state.waiter.Idle? && patience.Forever? ==> o.state.waiter == Idle(Granted))
        && (o.state.waiter.Idle? ==> o.state.waiter.result.Granted? || o.state.waiter.result.Denied?)
        && (Patient(Asks(patience)) && GivesUp(o.state.waiter) && !GivesUp(s.waiter) ==>
              kernelFails && s.waiter.Sleep?)
  {
    if Act(s, Waits(kernelFails)).Ok? {
      ServesStep(s, Asks(patience), Waits(kernelFails));
    }
  }

  lemma WaiterUntouched(s: State, a: Action)
    requires Act(s, a).Ok? && (a.Signals? || a.Posts?)
    ensures Act(s, a).state.waiter == s.waiter
  {
  }

  lemma DeniedGivesUp(o: Outcome)
    ensures o.Ok? && o.state.waiter == Idle(Denied) ==> GivesUp(o.state.waiter)
    ensures o.Ok? && o.state.waiter == Idle(Granted) ==> !GivesUp(o.state.waiter)
  {
  }

  // ----- How long it takes ------------------------------------------------------------------------

  /** The number of its own steps within which the waiter returns, not counting those that leave it
      asleep, and unless a signal sends it round the back-out loop again. */
  function CallRank(s: State): nat {
    match s.waiter
    case Idle(_) => 0
    case Look(request) => if request.TryWait? then 2 else SPINS + 8
    case Claim => 1
    case Spin(_, left) => left + 7
    case Decrement(_) => 6
    case Sleep(_) => 5
    case _ => Rank(s)
  }

  /** The step leaves the waiter asleep. */
  predicate SleepsOn(s: State, a: Action) {
    a == Waits(false) && s.waiter.Sleep? && s.kernel == 0
  }

  lemma CallRankFalls(s: State, a: Action)
    requires Inv(s) && !s.waiter.Idle? && Harmless(s, a)
    ensures Act(s, a).Ok?
    ensures var s' := Act(s, a).state;
      if a.Waits? && !SleepsOn(s, a) && !Repeats(s, a) then CallRank(s') < CallRank(s)
      else if !Repeats(s, a) then CallRank(s') <= CallRank(s) && s'.waiter == s.waiter
      else true
  {
    if BackingOut(s.waiter) {
      RankFalls(s, a);
    }
  }

  /** Along `acts` the call has not returned, and is never sent round the back-out loop again. */
  ghost predicate Underway(s: State, acts: seq<Action>)
    decreases |acts|
  {
    && !s.waiter.Idle?
    && (acts != [] ==>
          && !Repeats(s, acts[0]) && Harmless(s, acts[0])
          && Act(s, acts[0]).Ok? && Underway(Act(s, acts[0]).state, acts[1..]))
  }

  /** The waiter's own steps along `acts`, those apart that leave it asleep. */
  function StepsAwake(s: State, acts: seq<Action>): nat
    decreases |acts|
  {
    if acts == [] || !Act(s, acts[0]).Ok? then 0
    else (if acts[0].Waits? && !SleepsOn(s, acts[0]) then 1 else 0) + StepsAwake(Act(s, acts[0]).state, acts[1..])
  }

  lemma StillRanked(s: State)
    requires !s.waiter.Idle?
    ensures CallRank(s) > 0
  {
  }

  /** Every call returns within a bounded number of its own steps, sleep apart. */
  lemma {:induction false} CallReturns(s: State, acts: seq<Action>)
    requires Inv(s) && Underway(s, acts)
    ensures StepsAwake(s, acts) < CallRank(s)
    decreases |acts|
  {
    hide Act, Inv, CallRank, Repeats, SleepsOn, Harmless;
    if acts == [] {
      StillRanked(s);
    } else {
      CallRankFalls(s, acts[0]);
      StepKeeps(s, acts[0]);
      CallReturns(Act(s, acts[0]).state, acts[1..]);
    }
  }

  lemma {:induction false} AlwaysAwake(s: State, request: Request, acts: seq<Action>)
    requires Serves(s.waiter, request) && !Patient(request) && Underway(s, acts)
    ensures StepsAwake(s, acts) == WaiterSteps(acts)
    decreases |acts|
  {
    hide Repeats, Harmless;
    if acts == [] {
    } else {
      if acts[0].Begin? {
      } else {
        ServesStep(s, request, acts[0]);
      }
      AlwaysAwake(Act(s, acts[0]).state, request, acts[1..]);
    }
  }

  /** `tryWait` returns with its second step at the latest; a `wait` with timeout 0, unless a signal is
      caught between its two steps, within the spins and eight more. */
  lemma PromptReturns(s: State, request: Request, acts: seq<Action>)
    requires Inv(s) && s.waiter == Look(request) && !Patient(request) && Underway(s, acts)
    ensures WaiterSteps(acts) < if request.TryWait? then 2 else SPINS + 8
  {
    CallReturns(s, acts);
    AlwaysAwake(s, request, acts);
  }

  /** Waiting with no patience takes two steps at most. */
  lemma TryWaitFalls(s: State, kernelFails: bool)
    requires Serves(s.waiter, TryWait) && !s.waiter.Idle?
    ensures var o := WaitStep(s, kernelFails, false);
      o.Ok? && Serves(o.state.waiter, TryWait) && CallRank(o.state) < CallRank(s) <= 2
  {
    assert s.waiter.Look? || s.waiter.Claim?;
  }
}
