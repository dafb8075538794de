/** Particular runs, built call by call. */
module QueueTraces {
  import opened Bits
  import opened Blocks
  import opened QueueSteps
  import opened QueueInvariant
  import opened QueueRuns

  lemma RunNothing<T>(s: System<T>)
    ensures Run(s, []) == Ok(s)
  {
  }

  lemma Then<T>(first: System<T>, acts: seq<Action<T>>, a: Action<T>) returns (acts': seq<Action<T>>)
    requires Run(first, acts).Ok?
    ensures acts' == acts + [a]
    ensures Act(Run(first, acts).state.q, a).Ok? ==>
      Run(first, acts').Ok? && Run(first, acts').state.q == Act(Run(first, acts).state.q, a).state
    ensures var o := Act(Run(first, acts).state.q, a); o.Fault? ==> Run(first, acts') == Fault(o.why)
  {
    hide Act, Record, Contents;
    acts' := acts + [a];
    assert acts'[..|acts' | - 1] == acts;
  }

  function Iterate<T>(q: Queue<T>, a: Action<T>, n: nat): Outcome<Queue<T>>
    decreases n
  {
    if n == 0 then Ok(q) else
    match Act(q, a)
    case Fault(why) => Fault(why)
    case Ok(q') => Iterate(q', a, n - 1)
  }

  /** `n` steps of one thread. */
  lemma {:induction false} Repeat<T>(first: System<T>, acts: seq<Action<T>>, a: Action<T>, n: nat)
      returns (acts': seq<Action<T>>)
    requires Run(first, acts).Ok?
    requires Iterate(Run(first, acts).state.q, a, n).Ok?
    ensures Run(first, acts').Ok? && Run(first, acts').state.q == Iterate(Run(first, acts).state.q, a, n).state
    decreases n
  {
    hide Run, Act;
    if n == 0 {
      acts' := acts;
    } else {
      acts' := Then(first, acts, a);
      acts' := Repeat(first, acts', a, n - 1);
    }
  }

  lemma {:induction false} IterateAdd<T>(q: Queue<T>, a: Action<T>, m: nat, n: nat)
    requires Iterate(q, a, m).Ok?
    ensures Iterate(q, a, m + n) == Iterate(Iterate(q, a, m).state, a, n)
    decreases m
  {
    hide Act;
    if m == 0 {
    } else {
      IterateAdd(Act(q, a).state, a, m - 1, n);
    }
  }

  /** One whole call: it starts with `a` and takes `n` steps of its thread. */
  lemma Call<T>(first: System<T>, acts: seq<Action<T>>, a: Action<T>, step: Action<T>, n: nat)
      returns (acts': seq<Action<T>>)
    requires Run(first, acts).Ok? && Act(Run(first, acts).state.q, a).Ok?
    requires Iterate(Act(Run(first, acts).state.q, a).state, step, n).Ok?
    ensures Run(first, acts').Ok?
    ensures Run(first, acts').state.q == Iterate(Act(Run(first, acts).state.q, a).state, step, n).state
  {
    hide Run, Act, Iterate;
    acts' := Then(first, acts, a);
    acts' := Repeat(first, acts', step, n);
  }
}
