/**
 The authorization queue's bound. Submitters and the worker share one atomic counter; a submitter adds to it first
 and takes the addition back when the queue is full, so the counter can stand above the capacity for a moment.
 Each step below is one atomic action of one thread.
 */
module SubmitQueue {
  import opened Basics

  const AUTH_QUEUE_CAPACITY: nat := 512

  /** Where a submitter is: it must still send, must take its addition back, or is not submitting. */
  datatype Phase = Passed | Refused | SendFailed

  /** `queue` holds true for an authorization and false for a close or a row write. `taking`: the worker has received
      an authorization and not yet subtracted it. `lost`: authorizations in the queue of a worker that is gone. */
  datatype State = State(
    pending: int, submitters: map<nat, Phase>, queue: seq<bool>, taking: bool, alive: bool, lost: nat)

  const INIT: State := State(0, map[], [], false, true, 0)

  datatype Step =
    | FetchAdd(thread: nat)
    | FetchSub(thread: nat)
    | Send(thread: nat)
    | SendOther
    | Receive
    | TakeSub
    | WorkerGone

  predicate Enabled(s: State, step: Step) {
    match step
    case FetchAdd(t) => t !in s.submitters
    case FetchSub(t) => t in s.submitters && s.submitters[t] != Passed
    case Send(t) => t in s.submitters && s.submitters[t] == Passed
    case SendOther => s.alive
    case Receive => s.alive && !s.taking && s.queue != []
    case TakeSub => s.taking
    case WorkerGone => s.alive
  }

  function Next(s: State, step: Step): State
    requires Enabled(s, step)
  {
    match step
    case FetchAdd(t) =>
      s.(pending := s.pending + 1,
         submitters := s.submitters[t := if s.pending >= AUTH_QUEUE_CAPACITY then Refused else Passed])
    case FetchSub(t) => s.(pending := s.pending - 1, submitters := s.submitters - {t})
    case Send(t) =>
      if s.alive then s.(queue := s.queue + [true], submitters := s.submitters - {t})
      else s.(submitters := s.submitters[t := SendFailed])
    case SendOther => s.(queue := s.queue + [false])
    case Receive => s.(queue := s.queue[1..], taking := s.queue[0])
    case TakeSub => s.(pending := s.pending - 1, taking := false)
    case WorkerGone => s.(alive := false, queue := [], lost := s.lost + Auths(s.queue))
  }

  function Auths(queue: seq<bool>): nat {
    if queue == [] then 0 else (if queue[0] then 1 else 0) + Auths(queue[1..])
  }

  function Cleared(submitters: map<nat, Phase>): set<nat> {
    set t | t in submitters && submitters[t] == Passed
  }

  /** The counter is exactly the queued, the in-transit and the lost authorizations; those that passed the check fit. */
  ghost predicate Inv(s: State) {
    && s.pending == Auths(s.queue) + |s.submitters| + (if s.taking then 1 else 0) + s.lost
    && Auths(s.queue) + |Cleared(s.submitters)| <= AUTH_QUEUE_CAPACITY
  }

  lemma {:induction false} AuthsAppend(a: seq<bool>, b: seq<bool>)
    ensures Auths(a + b) == Auths(a) + Auths(b)
  {
    if a == [] {
      assert a + b == b;
    } else {
      assert (a + b)[1..] == a[1..] + b;
      AuthsAppend(a[1..], b);
    }
  }

  function Moved(m: map<nat, Phase>, t: nat, to: Option<Phase>): map<nat, Phase> {
    if to.None? then m - {t} else m[t := to.value]
  }

  /** One submitter moving changes the counts by that submitter alone. */
  lemma PhaseSet(m: map<nat, Phase>, t: nat, to: Option<Phase>)
    ensures var m' := Moved(m, t, to);
            && |m'| + (if t in m then 1 else 0) == |m| + (if to.Some? then 1 else 0)
            && |Cleared(m')| + (if t in m && m[t] == Passed then 1 else 0)
               == |Cleared(m)| + (if to == Some(Passed) then 1 else 0)
  {
    var m' := Moved(m, t, to);
    assert m.Keys - {t} == m'.Keys - {t};
    SwapCard(m.Keys, m'.Keys, t);
    SwapCard(Cleared(m), Cleared(m'), t);
  }

  lemma AddKeepsInv(s: State, t: nat)
    requires Inv(s) && t !in s.submitters
    ensures Inv(Next(s, FetchAdd(t)))
  {
    PhaseSet(s.submitters, t, Some(if s.pending >= AUTH_QUEUE_CAPACITY then Refused else Passed));
    SubsetCard(Cleared(s.submitters), s.submitters.Keys);
  }

  lemma SendKeepsInv(s: State, t: nat)
    requires Inv(s) && Enabled(s, Send(t))
    ensures Inv(Next(s, Send(t)))
  {
    PhaseSet(s.submitters, t, if s.alive then None else Some(SendFailed));
    AuthsAppend(s.queue, [true]);
  }

  lemma StepKeepsInv(s: State, step: Step)
    requires Inv(s) && Enabled(s, step)
    ensures Inv(Next(s, step))
  {
    match step
    case FetchAdd(t) => AddKeepsInv(s, t);
    case FetchSub(t) => PhaseSet(s.submitters, t, None);
    case Send(t) => SendKeepsInv(s, t);
    case SendOther => AuthsAppend(s.queue, [false]);
    case _ =>
  }

  ghost predicate RunFrom(s: State, steps: seq<Step>)
    decreases steps
  {
    steps == [] || (Enabled(s, steps[0]) && RunFrom(Next(s, steps[0]), steps[1..]))
  }

  ghost function End(s: State, steps: seq<Step>): State
    requires RunFrom(s, steps)
    decreases steps
  {
    if steps == [] then s else End(Next(s, steps[0]), steps[1..])
  }

  lemma {:induction false} RunKeepsInv(s: State, steps: seq<Step>)
    requires Inv(s) && RunFrom(s, steps)
    ensures Inv(End(s, steps))
    decreases steps
  {
    if steps != [] {
      StepKeepsInv(s, steps[0]);
      RunKeepsInv(Next(s, steps[0]), steps[1..]);
    }
  }

  /** In every interleaving: never more than the capacity queued, and the counter never goes below zero. */
  lemma QueueBounded(steps: seq<Step>)
    requires RunFrom(INIT, steps)
    ensures var s := End(INIT, steps);
            && Auths(s.queue) <= AUTH_QUEUE_CAPACITY
            && s.pending >= Auths(s.queue)
            && (forall step | Enabled(s, step) :: Next(s, step).pending >= 0)
  {
    RunKeepsInv(INIT, steps);
    var s := End(INIT, steps);
    forall step | Enabled(s, step) ensures Next(s, step).pending >= 0 { StepKeepsInv(s, step); }
  }

  /** A submission that finds the capacity pending is refused and leaves everything as it found it. */
  lemma RefusalIsUndone(s: State, t: nat)
    requires Inv(s) && t !in s.submitters && s.pending >= AUTH_QUEUE_CAPACITY
    ensures var s1 := Next(s, FetchAdd(t));
            && Enabled(s1, FetchSub(t)) && !Enabled(s1, Send(t))
            && Next(s1, FetchSub(t)) == s
  {
    var s1 := Next(s, FetchAdd(t));
    assert s1.submitters - {t} == s.submitters;
  }

  /** One that finds fewer pending is queued and counted if the worker is there, and otherwise leaves everything as it
      found it. */
  lemma AcceptedIsQueued(s: State, t: nat)
    requires Inv(s) && t !in s.submitters && s.pending < AUTH_QUEUE_CAPACITY
    ensures var s1 := Next(s, FetchAdd(t));
            && Enabled(s1, Send(t)) && !Enabled(s1, FetchSub(t))
            && var s2 := Next(s1, Send(t));
            if s.alive then s2 == s.(pending := s.pending + 1, queue := s.queue + [true])
            else Enabled(s2, FetchSub(t)) && Next(s2, FetchSub(t)) == s
  {
    var s1 := Next(s, FetchAdd(t));
    assert s1.submitters - {t} == s.submitters;
    assert s1.submitters[t := SendFailed] - {t} == s.submitters;
  }

  /** Closes and row writes are never refused while the worker is there, and are not counted. */
  lemma OthersAreQueued(s: State)
    requires s.alive
    ensures Enabled(s, SendOther) && Next(s, SendOther) == s.(queue := s.queue + [false])
  {
  }

  /** The worker takes jobs in order, and takes an authorization out of the counter. */
  lemma TakenInOrder(s: State)
    requires Inv(s) && s.alive && !s.taking && s.queue != []
    ensures Enabled(s, Receive)
    ensures var s1 := Next(s, Receive);
            if s.queue[0]
            then Enabled(s1, TakeSub) && Next(s1, TakeSub) == s.(queue := s.queue[1..], pending := s.pending - 1)
            else s1 == s.(queue := s.queue[1..])
  {
  }

  /** The overshoot is real: with the queue full, refused submitters stand in the counter all at once. */
  lemma CounterCanOvershoot(s: State, a: nat, b: nat)
    requires Inv(s) && s.pending == AUTH_QUEUE_CAPACITY && a != b && a !in s.submitters && b !in s.submitters
    ensures var s1 := Next(s, FetchAdd(a));
            Enabled(s1, FetchAdd(b)) && Next(s1, FetchAdd(b)).pending == AUTH_QUEUE_CAPACITY + 2
  {
  }
}
