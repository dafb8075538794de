/** `LightweightSemaphore` as an object, with its methods written as in the source. A schedule says what
    the signalling thread does between two accesses of the waiting one, and which kernel waits fail;
    it may end before the call does. Every execution is proved to be the run of `Semaphore` along the
    schedule. */
module SemaphoreHeap {
  import opened Options
  import opened Semaphore
  import opened SemaphoreCalls

  /** What may happen during a call: no other call begins, and every signal carries a token. */
  predicate Schedule(acts: seq<Action>) {
    forall i :: 0 <= i < |acts| ==> !acts[i].Begin? && (acts[i].Signals? ==> acts[i].tokens >= 1)
  }

  lemma Shift(a: seq<Action>, b: seq<Action>)
    requires b != []
    ensures (a + [b[0]]) + b[1..] == a + b
  {
  }

  /** Tokens not yet granted, and those that were. */
  function Balance(r: Ledger): int {
    Tokens(r.s) + r.granted - r.signalled
  }

  lemma OneMore(r: Ledger, acts: seq<Action>, a: Action)
    requires Run(r, acts).Running?
    ensures Run(r, acts + [a]) == Next(Run(r, acts).ledger, a)
  {
    hide Next;
    assert (acts + [a])[..|acts + [a]| - 1] == acts;
  }

  class LightweightSemaphore {
    var count: int      // m_count
    var kernel: nat     // m_sema
    var posting: bool   // the signaller is between its fetch_add and its post

    /** The same state in `Semaphore` with its ledger, the ledger when the present call began, what it
        asked for, and the steps taken since. */
    ghost var ledger: Ledger
    ghost var begin: Ledger
    ghost var request: Request
    ghost var steps: seq<Action>

    /** `steps` are those of one call. */
    ghost predicate InCall()
      reads this
    {
      begin.s.waiter.Idle? && OneCall(request, steps)
    }

    ghost predicate Valid()
      reads this
    {
      && ledger.s == State(count, kernel, ledger.s.waiter, if posting then Post else Quiet)
      && Inv(ledger.s)
      && Run(begin, steps) == Running(ledger)
      && Balance(ledger) == Balance(begin)
      && (!ledger.s.waiter.Idle? ==> ledger.granted == begin.granted && InCall())
    }

    constructor (initialCount: nat)
      ensures Valid() && ledger == Ledger(Start(initialCount), 0, 0)
    {
      count, kernel, posting := initialCount, 0, false;
      ledger, begin, steps := Ledger(Start(initialCount), 0, 0), Ledger(Start(initialCount), 0, 0), [];
      request := Request.TryWait;
    }

    ghost predicate At(w: Waiter)
      reads this
    {
      Valid() && ledger.s.waiter == w
    }

    /** One step of the step system, for the access just made. */
    ghost method Step(a: Action)
      requires Inv(ledger.s) && Run(begin, steps) == Running(ledger) && Balance(ledger) == Balance(begin)
      requires Harmless(ledger.s, a)
      modifies `ledger, `steps
      ensures Next(old(ledger), a) == Running(ledger) && steps == old(steps) + [a]
      ensures Inv(ledger.s) && Run(begin, steps) == Running(ledger) && Balance(ledger) == Balance(begin)
    {
      StepKeeps(ledger.s, a);
      ledger, steps := Next(ledger, a).ledger, steps + [a];
    }

    /** `signal`, lines 738-740. It leaves the semaphore in order exactly if it brings a token or finds
        nobody to wake. */
    method Signal(tokens: nat)
      requires Valid() && !posting
      modifies this
      ensures count == old(count) + tokens && kernel == old(kernel) && posting == old(count < 0)
      ensures begin == old(begin) && request == old(request)
      ensures steps == old(steps) + [Signals(tokens)] && Run(begin, steps) == Running(ledger)
      ensures ledger.s == State(count, kernel, old(ledger.s.waiter), if posting then Post else Quiet)
      ensures Valid() <==> tokens >= 1 || old(count) >= 0
    {
      SignalKeepsExactly(ledger.s, tokens);
      var oldCount := count;
      count := count + tokens;
      assert oldCount >= -1;  // line 740
      posting := oldCount < 0;
      OneMore(begin, steps, Signals(tokens));
      ledger, steps := Next(ledger, Signals(tokens)).ledger, steps + [Signals(tokens)];
    }

    /** `signal`, line 743. */
    method PostKernel()
      requires Valid() && posting
      modifies this
      ensures At(old(ledger.s.waiter)) && begin == old(begin) && request == old(request)
      ensures count == old(count) && kernel == old(kernel) + 1 && !posting && steps == old(steps) + [Posts]
    {
      kernel, posting := kernel + 1, false;
      Step(Posts);
    }

    /** The signaller signals, unless its last signal is still under way. */
    method SignalIfQuiet(tokens: nat)
      requires Valid() && !ledger.s.waiter.Idle? && tokens >= 1
      modifies this
      ensures At(old(ledger.s.waiter)) && begin == old(begin) && request == old(request)
      ensures steps == old(steps) + [Signals(tokens)]
    {
      if posting {
        Step(Signals(tokens));
      } else {
        Signal(tokens);
      }
    }

    method PostIfDue()
      requires Valid() && !ledger.s.waiter.Idle?
      modifies this
      ensures At(old(ledger.s.waiter)) && begin == old(begin) && request == old(request)
      ensures steps == old(steps) + [Posts]
    {
      if posting {
        PostKernel();
      } else {
        Step(Posts);
      }
    }

    /** Lets the signaller run until it is the waiter's turn, and says whether the waiter's kernel wait
        is to fail then. */
    method Yield(schedule: seq<Action>) returns (turn: Option<bool>, rest: seq<Action>)
      requires Valid() && !ledger.s.waiter.Idle? && Schedule(schedule)
      modifies this
      ensures At(old(ledger.s.waiter)) && begin == old(begin) && request == old(request)
      ensures Schedule(rest)
      ensures turn.Some? ==> |rest| < |schedule| && (steps + [Waits(turn.value)]) + rest == old(steps) + schedule
      ensures turn.None? ==> rest == [] && steps + rest == old(steps) + schedule
    {
      hide Run, Balance;
      rest := schedule;
      while rest != []
        invariant At(old(ledger.s.waiter)) && begin == old(begin) && request == old(request)
        invariant Schedule(rest) && |rest| <= |schedule| && steps + rest == old(steps) + schedule
        decreases |rest|
      {
        var a := rest[0];
        Shift(steps, rest);
        rest := rest[1..];
        match a
        case Waits(kernelFails) => return Some(kernelFails), rest;
        case Signals(tokens) => SignalIfQuiet(tokens);
        case Posts => PostIfDue();
      }
      return None, [];
    }

    /** A call that returns true has been granted one token, one that returns false none; without an
        answer the schedule has ended and none has been granted yet. */
    ghost predicate Answers(r: Option<bool>, rest: seq<Action>)
      reads this
    {
      && Schedule(rest) && InCall()
      && ledger.granted == begin.granted + (if r == Some(true) then 1 else 0)
      && (r.Some? ==> ledger.s.waiter == Idle(if r.value then Granted else Denied))
      && (r.None? ==> rest == [] && !ledger.s.waiter.Idle?)
    }

    /** Lines 678-679 and 720-721, the count having been seen positive. */
    method TakeOne(schedule: seq<Action>) returns (r: Option<bool>, rest: seq<Action>)
      requires At(Claim) && Schedule(schedule)
      modifies this
      ensures steps + rest == old(steps) + schedule
      ensures Valid() && begin == old(begin) && request == old(request) && Answers(r, rest)
      ensures r != Some(false)
    {
      hide Run, Balance;
      var turn: Option<bool>;
      turn, rest := Yield(schedule);
      if turn.None? { return None, rest; }
      count := count - 1;
      Step(Waits(turn.value));
      return Some(true), rest;
    }

    /** Lines 718-723, the body of `tryWait`; on failure a `wait` goes on to spin. */
    method TryTake(asked: Request, schedule: seq<Action>) returns (r: Option<bool>, rest: seq<Action>)
      requires At(Look(asked)) && Schedule(schedule)
      modifies this
      ensures steps + rest == old(steps) + schedule
      ensures Valid() && begin == old(begin) && request == old(request) && Schedule(rest)
      ensures r == Some(false) && asked.Wait? ==> At(Spin(asked.timeout, SPINS))
      ensures !(r == Some(false) && asked.Wait?) ==> Answers(r, rest)
    {
      hide Run, Balance;
      var turn: Option<bool>;
      turn, rest := Yield(schedule);
      if turn.None? { return None, rest; }
      var load := count;
      Step(Waits(turn.value));
      if load > 0 {
        r, rest := TakeOne(rest);
      } else {
        r := Some(false);
      }
    }

    /** Lines 673-682. */
    method SpinAWhile(timeout: int, schedule: seq<Action>) returns (r: Option<bool>, rest: seq<Action>)
      requires At(Spin(timeout, SPINS)) && Schedule(schedule)
      modifies this
      ensures steps + rest == old(steps) + schedule
      ensures Valid() && begin == old(begin) && request == old(request) && Schedule(rest)
      ensures r == Some(false) ==> At(Decrement(timeout))
      ensures r != Some(false) ==> Answers(r, rest)
    {
      hide Run, Balance;
      var spin := SPINS;
      rest := schedule;
      var turn: Option<bool>;
      while spin > 0
        invariant steps + rest == old(steps) + schedule
        invariant At(Spin(timeout, spin)) && begin == old(begin) && request == old(request) && Schedule(rest)
      {
        turn, rest := Yield(rest);
        if turn.None? { return None, rest; }
        spin := spin - 1;
        var load := count;
        Step(Waits(turn.value));
        if load > 0 {
          r, rest := TakeOne(rest);
          return;
        }
      }
      turn, rest := Yield(rest);
      if turn.None? { return None, rest; }
      Step(Waits(turn.value));
      return Some(false), rest;
    }

    /** Lines 686-692: asleep in the kernel, until it is posted or the wait fails. */
    method KernelWait(timeout: int, schedule: seq<Action>) returns (r: Option<bool>, rest: seq<Action>)
      requires At(Sleep(timeout)) && Schedule(schedule)
      modifies this
      ensures steps + rest == old(steps) + schedule
      ensures Valid() && begin == old(begin) && request == old(request) && Schedule(rest)
      ensures r == Some(false) ==> At(Undo)
      ensures r != Some(false) ==> Answers(r, rest)
    {
      hide Run, Balance;
      rest := schedule;
      while true
        invariant steps + rest == old(steps) + schedule
        invariant At(Sleep(timeout)) && begin == old(begin) && request == old(request) && Schedule(rest)
        decreases |rest|
      {
        var turn: Option<bool>;
        turn, rest := Yield(rest);
        if turn.None? { return None, rest; }
        if turn.value {
          Step(Waits(true));
          return Some(false), rest;
        } else if kernel > 0 {
          kernel := kernel - 1;
          Step(Waits(false));
          return Some(true), rest;
        }
        Step(Waits(false));
      }
    }

    /** Lines 703-706: the signaller was there after all. */
    method Retake(schedule: seq<Action>) returns (r: Option<bool>, rest: seq<Action>)
      requires At(Redo) && Schedule(schedule)
      modifies this
      ensures steps + rest == old(steps) + schedule
      ensures Valid() && begin == old(begin) && request == old(request) && Schedule(rest) && |rest| <= |schedule|
      ensures r == Some(false) ==> At(Undo)
      ensures r != Some(false) ==> Answers(r, rest)
    {
      hide Run, Balance;
      var turn: Option<bool>;
      turn, rest := Yield(schedule);
      if turn.None? { return None, rest; }
      var oldCount := count;
      count := count - 1;
      Step(Waits(turn.value));
      if oldCount > 0 {
        turn, rest := Yield(rest);
        if turn.None? { return None, rest; }
        if kernel > 0 {
          kernel := kernel - 1;
          Step(Waits(turn.value));
          return Some(true), rest;
        }
        Step(Waits(turn.value));
      }
      return Some(false), rest;
    }

    /** Lines 698-707. */
    method BackOut(schedule: seq<Action>) returns (r: Option<bool>, rest: seq<Action>)
      requires At(Undo) && Schedule(schedule)
      modifies this
      ensures steps + rest == old(steps) + schedule
      ensures Valid() && begin == old(begin) && request == old(request) && Answers(r, rest)
    {
      hide Run, Balance;
      rest := schedule;
      while true
        invariant steps + rest == old(steps) + schedule
        invariant At(Undo) && begin == old(begin) && request == old(request) && Schedule(rest)
        decreases |rest|
      {
        var turn: Option<bool>;
        turn, rest := Yield(rest);
        if turn.None? { return None, rest; }
        var oldCount := count;
        count := count + 1;
        Step(Waits(turn.value));
        if oldCount < 0 {
          return Some(false), rest;
        }
        r, rest := Retake(rest);
        if r != Some(false) { return; }
      }
    }

    /** `tryWait`. It never sleeps. */
    method TryWait(schedule: seq<Action>) returns (r: Option<bool>, rest: seq<Action>)
      requires Valid() && ledger.s.waiter.Idle? && Schedule(schedule)
      modifies this
      ensures Valid() && begin == old(ledger) && Answers(r, rest)
      ensures steps + rest == [Begin(Request.TryWait)] + schedule
      ensures request == Request.TryWait && NeverAsleep(begin, steps)
      ensures Run(old(ledger), steps) == Running(ledger) && Balance(ledger) == old(Balance(ledger))
    {
      begin, request, steps := ledger, Request.TryWait, [];
      Step(Begin(Request.TryWait));
      r, rest := TryTake(Request.TryWait, schedule);
      NeverSleeps(begin, request, steps);
    }

    /** With a timeout of 0 the waiter never sleeps; with any other, an answer of false means that the
        kernel has let it down. */
    ghost predicate MindsTimeout(timeout: int, r: Option<bool>)
      reads this
    {
      && (timeout == 0 ==> NeverAsleep(begin, steps))
      && (timeout != 0 && r == Some(false) ==> KernelFailed(begin, steps))
    }

    lemma TimeoutMinded(timeout: int, r: Option<bool>, rest: seq<Action>)
      requires Valid() && request == Request.Wait(timeout) && Answers(r, rest)
      ensures MindsTimeout(timeout, r)
    {
      hide NeverAsleep, KernelFailed, Balance;
      TimeoutMeans(begin, timeout, steps);
    }

    /** Lines 683-707. */
    method WaitInKernel(timeout: int, schedule: seq<Action>) returns (r: Option<bool>, rest: seq<Action>)
      requires At(Decrement(timeout)) && Schedule(schedule)
      modifies this
      ensures steps + rest == old(steps) + schedule
      ensures Valid() && begin == old(begin) && request == old(request) && Answers(r, rest)
    {
      hide Run, Balance;
      var turn: Option<bool>;
      turn, rest := Yield(schedule);
      if turn.None? { return None, rest; }
      var oldCount := count;
      count := count - 1;
      Step(Waits(turn.value));
      if oldCount > 0 {
        return Some(true), rest;
      }
      if timeout != 0 {
        r, rest := KernelWait(timeout, rest);
        if r != Some(false) { return; }
      }
      r, rest := BackOut(rest);
    }

    /** `waitWithPartialSpinning`. */
    method WaitWithPartialSpinning(timeout: int, schedule: seq<Action>) returns (r: Option<bool>, rest: seq<Action>)
      requires At(Spin(timeout, SPINS)) && Schedule(schedule) && request == Request.Wait(timeout)
      modifies this
      ensures steps + rest == old(steps) + schedule
      ensures Valid() && begin == old(begin) && request == old(request) && Answers(r, rest)
      ensures MindsTimeout(timeout, r)
    {
      hide Run, Balance;
      r, rest := SpinAWhile(timeout, schedule);
      if r == Some(false) {
        r, rest := WaitInKernel(timeout, rest);
      }
      TimeoutMinded(timeout, r, rest);
    }

    /** `wait`. */
    method Wait(timeout: int, schedule: seq<Action>) returns (r: Option<bool>, rest: seq<Action>)
      requires Valid() && ledger.s.waiter.Idle? && Schedule(schedule)
      modifies this
      ensures Valid() && begin == old(ledger) && Answers(r, rest)
      ensures steps + rest == [Begin(Request.Wait(timeout))] + schedule
      ensures request == Request.Wait(timeout) && MindsTimeout(timeout, r)
      ensures Run(old(ledger), steps) == Running(ledger) && Balance(ledger) == old(Balance(ledger))
    {
      begin, request, steps := ledger, Request.Wait(timeout), [];
      Step(Begin(Request.Wait(timeout)));
      r, rest := TryTake(Request.Wait(timeout), schedule);
      if r == Some(false) {
        r, rest := WaitWithPartialSpinning(timeout, rest);
      } else {
        TimeoutMinded(timeout, r, rest);
      }
    }

    /** `availableApprox`: exact while nobody waits. */
    method AvailableApprox() returns (available: nat)
      requires Valid()
      ensures available == Semaphore.AvailableApprox(ledger.s)
      ensures ledger.s.waiter.Idle? ==> available == Tokens(ledger.s)
    {
      var load := count;
      available := if load > 0 then load else 0;
    }
  }
}
