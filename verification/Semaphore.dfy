/** `LightweightSemaphore` as a transition system: one waiter, one signaller, and one step for every
    load, `fetch_add`, kernel wait and kernel post.

    The kernel semaphore is a counter. A kernel wait may also fail or time out at any moment. The
    counter is an unbounded integer: tokens are assumed to stay below 2^63. */
module Semaphore {

  datatype WaitResult = NotCalled | Granted | Denied

  datatype Request = TryWait | Wait(timeout: int)

  const SPINS: nat := 1024

  /** Where the waiter is in `tryWait` or `waitWithPartialSpinning`. */
  datatype Waiter =
    | Idle(result: WaitResult)
    | Look(request: Request)          // line 718
    | Claim                           // lines 678 and 720: the count was seen positive
    | Spin(timeout: int, left: nat)   // lines 674-682
    | Decrement(timeout: int)         // line 683
    | Sleep(timeout: int)             // lines 686-692, in the kernel
    | Undo                            // line 700
    | Redo                            // line 704
    | TryKernel                       // line 705

  datatype Signaller = Quiet | Post   // Post: between the fetch_add on line 739 and line 743

  datatype State = State(count: int, kernel: nat, waiter: Waiter, signaller: Signaller)

  datatype Action =
    | Begin(request: Request)
    | Waits(kernelFails: bool)   // whether the kernel wait fails or times out in this step
    | Signals(tokens: nat)       // signal(tokens), up to its fetch_add
    | Posts

  datatype Outcome = Ok(state: State) | AssertFailed

  function Start(tokens: nat): State {
    State(tokens, 0, Idle(NotCalled), Quiet)
  }

  function Goes(s: State, w: Waiter): Outcome {
    Ok(s.(waiter := w))
  }

  function WaiterStep(s: State, kernelFails: bool): Outcome {
    match s.waiter
    case Idle(_) => Ok(s)
    case Look(request) =>
      Goes(s, if s.count > 0 then Claim
              else if request.TryWait? then Idle(Denied) else Spin(request.timeout, SPINS))
    case Claim => Ok(s.(count := s.count - 1, waiter := Idle(Granted)))
    case Spin(timeout, left) =>
      Goes(s, if left == 0 then Decrement(timeout)
              else if s.count > 0 then Claim else Spin(timeout, left - 1))
    case Decrement(timeout) =>
      Ok(s.(count := s.count - 1,
            waiter := if s.count > 0 then Idle(Granted) else if timeout == 0 then Undo else Sleep(timeout)))
    case Sleep(timeout) =>
      if kernelFails then Goes(s, Undo)
      else if s.kernel > 0 then Ok(s.(kernel := s.kernel - 1, waiter := Idle(Granted)))
      else Ok(s)
    case Undo =>
      Ok(s.(count := s.count + 1, waiter := if s.count < 0 then Idle(Denied) else Redo))
    case Redo =>
      Ok(s.(count := s.count - 1, waiter := if s.count > 0 then TryKernel else Undo))
    case TryKernel =>
      if s.kernel > 0 then Ok(s.(kernel := s.kernel - 1, waiter := Idle(Granted))) else Goes(s, Undo)
  }

  function Act(s: State, a: Action): Outcome {
    match a
    case Begin(request) => if s.waiter.Idle? then Goes(s, Look(request)) else Ok(s)
    case Waits(kernelFails) => WaiterStep(s, kernelFails)
    case Signals(tokens) =>
      if s.signaller.Post? then Ok(s)
      else if s.count < -1 then AssertFailed
      else Ok(s.(count := s.count + tokens, signaller := if s.count < 0 then Post else Quiet))
    case Posts =>
      if s.signaller.Quiet? then Ok(s) else Ok(s.(kernel := s.kernel + 1, signaller := Quiet))
  }

  // ----- The calls around it ----------------------------------------------------------------------

  /** The three kinds of call that wait for a token: `try_...`, `wait_...`, and `wait_..._timed`. */
  datatype Patience = Try | Forever | Within(timeout: int)

  /** What such a call asks of the semaphore. */
  function Asks(patience: Patience): Request {
    match patience
    case Try => TryWait
    case Forever => Wait(-1)
    case Within(timeout) => Wait(timeout)
  }

  /** One step of its waiting: `while (!wait());` asks again when refused. */
  function WaitStep(s: State, kernelFails: bool, forever: bool): Outcome {
    var o := Act(s, Waits(kernelFails));
    if o.Ok? && o.state.waiter == Idle(Denied) && forever then Act(o.state, Begin(Wait(-1))) else o
  }

  // ----- The invariant ---------------------------------------------------------------------------

  /** The waiter has taken one off the count without having been granted a token. */
  predicate Owes(w: Waiter) {
    w.Sleep? || w.Undo? || w.TryKernel?
  }

  /** Tokens signalled and not granted. */
  function Tokens(s: State): int {
    s.count + if Owes(s.waiter) then 1 else 0
  }

  /** `availableApprox`. */
  function AvailableApprox(s: State): nat {
    if s.count > 0 then s.count else 0
  }

  function Pending(s: State): nat {
    s.kernel + if s.signaller.Post? then 1 else 0
  }

  /** The waiter has gone below zero and a signal has since made up for it. */
  predicate Matched(s: State) {
    s.waiter.Redo? || (Owes(s.waiter) && s.count >= 0)
  }

  predicate Inv(s: State) {
    && Tokens(s) >= 0
    && Pending(s) == (if Matched(s) then 1 else 0)
    && (s.waiter.Claim? || s.waiter.Redo? ==> s.count > 0)
    && (s.waiter.TryKernel? ==> s.count >= 0)
  }

  /** Tokens that one step adds, and whether it returns true to the waiter. */
  function Added(s: State, a: Action): nat {
    if a.Signals? && s.signaller.Quiet? then a.tokens else 0
  }

  predicate Grants(s: State, s': State) {
    s'.waiter == Idle(Granted) && !s.waiter.Idle?
  }

  /** A signal of no tokens is harmless as long as nobody has to be woken. */
  predicate Harmless(s: State, a: Action) {
    a.Signals? && a.tokens == 0 && s.signaller.Quiet? ==> s.count >= 0
  }

  /** `wait` and `tryWait` return true exactly when they have consumed one token, and false exactly
      when they have consumed none. */
  lemma StepKeeps(s: State, a: Action)
    requires Inv(s) && Harmless(s, a)
    ensures Act(s, a).Ok? && Inv(Act(s, a).state)
    ensures Tokens(Act(s, a).state) == Tokens(s) + Added(s, a) - (if Grants(s, Act(s, a).state) then 1 else 0)
  {
  }

  /** A refusal is right: there was no token at the step that decided it. */
  lemma DeniedMeans(s: State, kernelFails: bool)
    requires Inv(s) && !s.waiter.Idle?
    ensures var o := Act(s, Waits(kernelFails)); o.Ok? && (o.state.waiter == Idle(Denied) ==> Tokens(s) == 0)
  {
  }

  /** `assert(count >= 0)` in `signal` lets 0 through, but a signal of no tokens while the waiter
      sleeps posts the kernel semaphore for nothing. The invariant survives a signal exactly when it
      carries a token or finds no sleeper. */
  lemma SignalKeepsExactly(s: State, tokens: nat)
    requires Inv(s) && s.signaller.Quiet?
    ensures Act(s, Signals(tokens)).Ok?
    ensures Inv(Act(s, Signals(tokens)).state) <==> tokens >= 1 || s.count >= 0
  {
  }

  // ----- Every run -------------------------------------------------------------------------------

  /** A run with its ledger: tokens signalled so far, and calls that returned true. */
  datatype Ledger = Ledger(s: State, signalled: nat, granted: nat)

  datatype RunOutcome = Running(ledger: Ledger) | Stuck

  function Next(r: Ledger, a: Action): RunOutcome {
    match Act(r.s, a)
    case AssertFailed => Stuck
    case Ok(s') => Running(Ledger(s', r.signalled + Added(r.s, a), r.granted + if Grants(r.s, s') then 1 else 0))
  }

  function Run(r: Ledger, acts: seq<Action>): RunOutcome {
    if acts == [] then Running(r) else
    match Run(r, acts[..|acts| - 1])
    case Stuck => Stuck
    case Running(r') => Next(r', acts[|acts| - 1])
  }

  /** Nothing signalled, nothing granted yet. */
  function Opening(initial: nat): Ledger {
    Ledger(Start(initial), 0, 0)
  }

  /** Every signal of no tokens finds nobody to wake. */
  ghost predicate HarmlessRun(r: Ledger, acts: seq<Action>) {
    forall k :: 0 <= k < |acts| && Run(r, acts[..k]).Running? ==> Harmless(Run(r, acts[..k]).ledger.s, acts[k])
  }

  lemma HarmlessPrefix(r: Ledger, acts: seq<Action>)
    requires acts != []
    ensures var before := acts[..|acts| - 1];
      HarmlessRun(r, acts) <==>
      HarmlessRun(r, before) && (Run(r, before).Running? ==> Harmless(Run(r, before).ledger.s, acts[|acts| - 1]))
  {
    hide Run;
    var before := acts[..|acts| - 1];
    assert forall k :: 0 <= k <= |before| ==> before[..k] == acts[..k];
    assert forall k :: 0 <= k < |before| ==> before[k] == acts[k];
  }

  /** On every run: `assert(oldCount >= -1)` holds; tokens are conserved; the kernel semaphore and the
      posts under way amount to one exactly when the waiter has gone below zero and been made up for,
      and to nothing otherwise. */
  lemma {:induction false} EveryRun(initial: nat, acts: seq<Action>)
    requires HarmlessRun(Opening(initial), acts)
    ensures var o := Run(Opening(initial), acts);
      && o.Running? && Inv(o.ledger.s)
      && Tokens(o.ledger.s) == initial + o.ledger.signalled - o.ledger.granted
  {
    if acts == [] {
    } else {
      var before := acts[..|acts| - 1];
      HarmlessPrefix(Opening(initial), acts);
      EveryRun(initial, before);
      StepKeeps(Run(Opening(initial), before).ledger.s, acts[|acts| - 1]);
    }
  }

  /** No wake-up is lost: a sleeper for whom there is a token finds the kernel semaphore posted, or the
      signaller on its way to post it. And none is left over once the waiter has returned. */
  lemma {:induction false} NoLostWakeup(initial: nat, acts: seq<Action>)
    requires HarmlessRun(Opening(initial), acts)
    ensures var o := Run(Opening(initial), acts);
      && o.Running?
      && var s := o.ledger.s;
      && (s.waiter.Sleep? && Tokens(s) > 0 ==> s.kernel == 1 || s.signaller.Post?)
      && (s.waiter.Sleep? && Tokens(s) == 0 ==> s.kernel == 0 && s.signaller.Quiet?)
      && (s.waiter.Idle? ==> s.kernel == 0 && s.signaller.Quiet? && s.count == Tokens(s))
  {
    EveryRun(initial, acts);
  }

  // ----- Signals of no tokens ----------------------------------------------------------------------

  /** A failed assertion, or more calls granted than there were tokens. */
  predicate Overdrawn(initial: nat, o: RunOutcome) {
    o.Stuck? || o.ledger.granted > initial + o.ledger.signalled
  }

  predicate NoSignals(acts: seq<Action>) {
    forall i :: 0 <= i < |acts| ==> !acts[i].Signals?
  }

  lemma {:induction false} RunOn(r: Ledger, a: seq<Action>, b: seq<Action>)
    requires Run(r, a).Running?
    ensures Run(r, a + b) == Run(Run(r, a).ledger, b)
  {
    hide Next;
    if b == [] {
      assert a + b == a;
    } else {
      assert (a + b)[..|a + b| - 1] == a + b[..|b| - 1];
      RunOn(r, a, b[..|b| - 1]);
    }
  }

  lemma OneStep(r: Ledger, a: Action)
    ensures Run(r, [a]) == Next(r, a)
  {
    hide Next;
    assert [a][..0] == [];
  }

  lemma {:induction false} SpinsDown(r: Ledger, timeout: int, n: nat)
    requires r.s.waiter == Spin(timeout, n) && r.s.count <= 0
    ensures Run(r, seq(n, _ => Waits(false))) == Running(r.(s := r.s.(waiter := Spin(timeout, 0))))
    decreases n
  {
    var acts := seq(n, _ => Waits(false));
    if n == 0 {
      assert acts == [];
    } else {
      var r' := r.(s := r.s.(waiter := Spin(timeout, n - 1)));
      assert acts == [Waits(false)] + seq(n - 1, _ => Waits(false));
      OneStep(r, Waits(false));
      hide Run;
      RunOn(r, [Waits(false)], seq(n - 1, _ => Waits(false)));
      SpinsDown(r', timeout, n - 1);
    }
  }

  lemma TwoSteps(r: Ledger, acts: seq<Action>)
    requires |acts| == 2 && Next(r, acts[0]).Running?
    ensures Run(r, acts) == Next(Next(r, acts[0]).ledger, acts[1])
  {
    hide Next;
    assert acts[..1][..0] == [];
    assert acts[..1][0] == acts[0];
    assert Run(r, acts[..1]) == Next(r, acts[0]);
  }

  lemma CallSpins(r: Ledger)
    requires r.s == State(0, 1, Idle(Denied), Quiet)
    ensures Run(r, [Begin(Wait(-1)), Waits(false)]) == Running(r.(s := r.s.(waiter := Spin(-1, SPINS))))
  {
    hide Run;
    TwoSteps(r, [Begin(Wait(-1)), Waits(false)]);
  }

  lemma ThreeSteps(r: Ledger, acts: seq<Action>)
    requires |acts| == 3 && Next(r, acts[0]).Running? && Next(Next(r, acts[0]).ledger, acts[1]).Running?
    ensures Run(r, acts) == Next(Next(Next(r, acts[0]).ledger, acts[1]).ledger, acts[2])
  {
    hide Next;
    TwoSteps(r, acts[..2]);
  }

  lemma SleepsAndWakes(r: Ledger)
    requires r.s == State(0, 1, Spin(-1, 0), Quiet)
    ensures Run(r, seq(3, _ => Waits(false)))
         == Running(r.(s := State(-1, 0, Idle(Granted), Quiet), granted := r.granted + 1))
  {
    hide Run;
    ThreeSteps(r, seq(3, _ => Waits(false)));
  }

  /** With a post left over, the next call that has to sleep is granted what is not there. */
  lemma StalePostGrants(r: Ledger) returns (more: seq<Action>)
    requires r.s == State(0, 1, Idle(Denied), Quiet)
    ensures NoSignals(more)
    ensures var o := Run(r, more); o.Running? && o.ledger.granted == r.granted + 1 && o.ledger.signalled == r.signalled
  {
    hide Run, Next;
    var call, spins, last := [Begin(Wait(-1)), Waits(false)], seq(SPINS, _ => Waits(false)), seq(3, _ => Waits(false));
    more := call + (spins + last);
    var r1, r2 := r.(s := r.s.(waiter := Spin(-1, SPINS))), r.(s := r.s.(waiter := Spin(-1, 0)));
    CallSpins(r);
    RunOn(r, call, spins + last);
    SpinsDown(r1, -1, SPINS);
    RunOn(r1, spins, last);
    SleepsAndWakes(r2);
  }

  lemma HarmStart(initial: nat, before: seq<Action>) returns (r: Ledger)
    requires HarmlessRun(Opening(initial), before)
    requires var o := Run(Opening(initial), before); o.Running? && !Harmless(o.ledger.s, Signals(0))
    ensures Run(Opening(initial), before + [Signals(0)]) == Running(r)
    ensures r.granted == initial + r.signalled
    ensures (r.s.waiter.Sleep? || r.s.waiter.Undo?) && r.s == State(-1, 0, r.s.waiter, Post)
  {
    hide Run, HarmlessRun;
    EveryRun(initial, before);
    var was := Run(Opening(initial), before).ledger;
    RunOn(Opening(initial), before, [Signals(0)]);
    OneStep(was, Signals(0));
    r := was.(s := was.s.(signaller := Post));
  }

  /** From there a call is granted what nobody signalled. */
  lemma Overgrant(r: Ledger) returns (more: seq<Action>)
    requires (r.s.waiter.Sleep? || r.s.waiter.Undo?) && r.s == State(-1, 0, r.s.waiter, Post)
    ensures NoSignals(more)
    ensures var o := Run(r, more); o.Running? && o.ledger.granted == r.granted + 1 && o.ledger.signalled == r.signalled
  {
    hide Run;
    var two := [Posts, Waits(false)];
    TwoSteps(r, two);
    if r.s.waiter.Sleep? {
      more := two;
    } else {
      var r2 := Run(r, two).ledger;
      assert r2.s == State(0, 1, Idle(Denied), Quiet);
      var rest := StalePostGrants(r2);
      more := two + rest;
      RunOn(r, two, rest);
    }
  }

  /** After a signal of no tokens that found a sleeper, some call may be granted a token that nobody
      signalled, without any further signal. */
  lemma HarmDone(initial: nat, before: seq<Action>) returns (more: seq<Action>)
    requires HarmlessRun(Opening(initial), before)
    requires var o := Run(Opening(initial), before); o.Running? && !Harmless(o.ledger.s, Signals(0))
    ensures NoSignals(more) && Overdrawn(initial, Run(Opening(initial), before + [Signals(0)] + more))
  {
    var r := HarmStart(initial, before);
    hide Run, Next, Act, Harmless, HarmlessRun;
    more := Overgrant(r);
    RunOn(Opening(initial), before + [Signals(0)], more);
  }

  lemma HarmlessExtended(r: Ledger, acts: seq<Action>, k: nat, more: seq<Action>)
    requires HarmlessRun(r, acts) && k <= |acts| && NoSignals(more)
    ensures HarmlessRun(r, acts[..k] + more)
  {
    hide Run;
    var a := acts[..k] + more;
    assert forall i :: 0 <= i < k ==> a[..i] == acts[..i] && a[i] == acts[i];
    assert forall i :: k <= i < |a| ==> a[i] == more[i - k];
  }

  lemma HarmfulIsZero(s: State, a: Action)
    requires !Harmless(s, a)
    ensures a == Signals(0) && !Harmless(s, Signals(0))
  {
  }

  /** A run can go wrong, at once or later and without any further signal, exactly if one of its
      signals carries no token and finds a waiter to wake. */
  lemma {:induction false} SafeExactly(initial: nat, acts: seq<Action>)
    ensures HarmlessRun(Opening(initial), acts) <==>
      forall k, more :: 0 <= k <= |acts| && NoSignals(more) ==>
        !Overdrawn(initial, Run(Opening(initial), acts[..k] + more))
  {
    hide Run, Next, Harmless;
    var r := Opening(initial);
    if HarmlessRun(r, acts) {
      forall k, more | 0 <= k <= |acts| && NoSignals(more) ensures !Overdrawn(initial, Run(r, acts[..k] + more)) {
        HarmlessExtended(r, acts, k, more);
        EveryRun(initial, acts[..k] + more);
      }
    } else {
      assert acts != [];
      var n := |acts| - 1;
      var before := acts[..n];
      HarmlessPrefix(r, acts);
      if HarmlessRun(r, before) {
        assert acts == before + [acts[n]];
        HarmfulIsZero(Run(r, before).ledger.s, acts[n]);
        var more := HarmDone(initial, before);
        assert acts[..n + 1] == acts;
        assert Overdrawn(initial, Run(r, acts[..n + 1] + more));
      } else {
        SafeExactly(initial, before);
        var k, more :| 0 <= k <= |before| && NoSignals(more) && Overdrawn(initial, Run(r, before[..k] + more));
        assert before[..k] == acts[..k];
        assert Overdrawn(initial, Run(r, acts[..k] + more));
      }
    }
  }

  // ----- The back-out loop -----------------------------------------------------------------------

  predicate BackingOut(w: Waiter) {
    w.Undo? || w.Redo? || w.TryKernel?
  }

  /** The number of its own steps within which the waiter leaves the loop. */
  function Rank(s: State): nat {
    match s.waiter
    case Undo => if s.count < 0 then 4 else 3
    case Redo => 2
    case TryKernel => 1
    case _ => 0
  }

  /** The one step that sends the loop round again. */
  predicate Repeats(s: State, a: Action) {
    a.Waits? && s.waiter.TryKernel? && s.signaller.Post?
  }

  /** No step of the signaller moves the waiter further from the exit; every step of the waiter brings
      it nearer, except a failed `try_wait`, and that happens only while a signal lies between its
      counter update and its kernel post. */
  lemma RankFalls(s: State, a: Action)
    requires Inv(s) && BackingOut(s.waiter) && Harmless(s, a)
    ensures var s' := Act(s, a).state;
      && Act(s, a).Ok?
      && (a.Waits? && !Repeats(s, a) ==> Rank(s') < Rank(s))
      && (!a.Waits? ==> Rank(s') <= Rank(s) && s'.waiter == s.waiter)
      && (a.Waits? && s.waiter.TryKernel? && s'.waiter.Undo? ==> s.signaller.Post?)
  {
  }

  function WaiterSteps(acts: seq<Action>): nat {
    if acts == [] then 0 else (if acts[0].Waits? then 1 else 0) + WaiterSteps(acts[1..])
  }

  /** Along `acts` the waiter stays in the loop and is never sent round again. */
  ghost predicate Straight(s: State, acts: seq<Action>)
    decreases |acts|
  {
    BackingOut(s.waiter)
    && (acts != [] ==>
          && !Repeats(s, acts[0]) && Harmless(s, acts[0])
          && Act(s, acts[0]).Ok? && Straight(Act(s, acts[0]).state, acts[1..]))
  }

  /** The back-out ends: unless a signal is caught between its two steps, the waiter takes at most
      three more steps inside the loop, whatever the signaller does. */
  lemma {:induction false} BackOutTerminates(s: State, acts: seq<Action>)
    requires Inv(s) && Straight(s, acts)
    ensures WaiterSteps(acts) < Rank(s) <= 4
    decreases |acts|
  {
    if acts == [] {
    } else {
      RankFalls(s, acts[0]);
      StepKeeps(s, acts[0]);
      BackOutTerminates(Act(s, acts[0]).state, acts[1..]);
    }
  }
}
