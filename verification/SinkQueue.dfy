/**
 The byte-bounded queue between the relay thread and one media sink. The two threads share a channel, an atomic byte
 counter and a failed flag; each step below is one atomic action of one of them.
 */
module SinkQueue {
  import Flv

  const SINK_QUEUE_MESSAGES: nat := 512

  datatype Tag = Tag(bytes: seq<Flv.Byte>)

  function Size(tag: Tag): nat {
    |tag.bytes|
  }

  function Bytes(tags: seq<Tag>): nat {
    if tags == [] then 0 else Size(tags[0]) + Bytes(tags[1..])
  }

  /** Where `try_send` is: past the flag test, past the byte check, over the limit, or about to disable. */
  datatype Sender = Idle | Offering(tag: Tag) | Sending(tag: Tag) | Refused(tag: Tag) | Disabling

  /** Where the worker is. `drained`: the channel was empty and closed when the loop ended. */
  datatype Worker =
    | Starting
    | Looping
    | Receiving
    | Got(tag: Tag)
    | Writing(tag: Tag)
    | Written(tag: Tag, ok: bool)
    | Discarding
    | Leaving(drained: bool)
    | Zeroing(drained: bool)
    | Returning(drained: bool)
    | Exited(drained: bool)

  /** `accepted` and `output` are every tag ever queued and every tag ever written whole; `lost` are the bytes queued
      when the worker let go of the channel; `zeroed`: the worker has reset the counter. */
  datatype State = State(
    max: nat, queued: int, failed: bool, open: bool, sender: Sender, worker: Worker, queue: seq<Tag>,
    accepted: seq<Tag>, output: seq<Tag>, lost: nat, zeroed: bool)

  function Init(max: nat): State {
    State(max, 0, false, true, Idle, Starting, [], [], [], 0, false)
  }

  datatype Step =
    | Offer(tag: Tag)
    | Add
    | Push
    | TakeBack
    | Disable
    | Close
    | Expire
    | Begin(ok: bool)
    | Poll
    | Timeout
    | Receive
    | Hangup
    | Recheck
    | Write(ok: bool)
    | Subtract
    | Leave
    | Zero
    | Return
    | ReportFailure

  predicate Enabled(s: State, step: Step) {
    match step
    case Offer(_) => s.sender.Idle?
    case Add => s.sender.Offering?
    case Push => s.sender.Sending?
    case TakeBack => s.sender.Refused?
    case Disable => s.sender.Disabling? || s.sender.Idle?
    case Close => s.sender.Idle?
    case Expire => s.sender.Idle? && !s.open
    case Begin(_) => s.worker.Starting?
    case Poll => s.worker.Looping?
    case Timeout => s.worker.Receiving?
    case Receive => s.worker.Receiving? && s.queue != []
    case Hangup => s.worker.Receiving? && s.queue == [] && !s.open
    case Recheck => s.worker.Got?
    case Write(_) => s.worker.Writing?
    case Subtract => s.worker.Written?
    case Leave => s.worker.Leaving?
    case Zero => s.worker.Discarding? || s.worker.Zeroing?
    case Return => s.worker.Returning?
    case ReportFailure => s.worker.Exited?
  }

  function Next(s: State, step: Step): State
    requires Enabled(s, step)
  {
    match step
    // The sender: `try_send`, `disable`, and `stop` closing the channel and giving up on the worker.
    case Offer(tag) => if !s.open || s.failed then s.(open := false) else s.(sender := Offering(tag))
    case Add =>
      s.(queued := s.queued + Size(s.sender.tag),
         sender := if s.queued + Size(s.sender.tag) > s.max then Refused(s.sender.tag) else Sending(s.sender.tag))
    case Push =>
      if s.worker.Exited? || |s.queue| >= SINK_QUEUE_MESSAGES then s.(sender := Refused(s.sender.tag))
      else s.(queue := s.queue + [s.sender.tag], accepted := s.accepted + [s.sender.tag], sender := Idle)
    case TakeBack => s.(queued := s.queued - Size(s.sender.tag), sender := Disabling)
    case Disable => s.(failed := true, open := false, sender := Idle)
    case Close => s.(open := false)
    case Expire => s.(failed := true)
    // The worker: opening its output, then `consume_queue`, then reporting an error.
    case Begin(ok) => s.(worker := if ok then Looping else Returning(false))
    case Poll => s.(worker := if s.failed then Leaving(false) else Receiving)
    case Timeout => s.(worker := Looping)
    case Receive => s.(worker := Got(s.queue[0]), queue := s.queue[1..])
    case Hangup => s.(worker := Leaving(true))
    case Recheck => s.(worker := if s.failed then Discarding else Writing(s.worker.tag))
    case Write(ok) =>
      s.(worker := Written(s.worker.tag, ok), output := if ok then s.output + [s.worker.tag] else s.output)
    case Subtract =>
      s.(queued := s.queued - Size(s.worker.tag), worker := if s.worker.ok then Looping else Returning(false))
    case Leave => s.(worker := if s.failed then Zeroing(s.worker.drained) else Returning(s.worker.drained))
    case Zero =>
      s.(queued := 0, zeroed := true,
         worker := if s.worker.Discarding? then Leaving(false) else Returning(s.worker.drained))
    case Return => s.(worker := Exited(s.worker.drained), queue := [], lost := s.lost + Bytes(s.queue))
    case ReportFailure => s.(failed := true)
  }

  // ----- What every step keeps

  /** Bytes the sender has added and not yet queued. */
  function InFlight(sender: Sender): nat {
    if sender.Sending? || sender.Refused? then Size(sender.tag) else 0
  }

  /** Bytes the worker has received and not yet subtracted. */
  function InHand(worker: Worker): nat {
    if worker.Got? || worker.Writing? || worker.Written? then Size(worker.tag) else 0
  }

  predicate InLoop(worker: Worker) {
    worker.Starting? || worker.Looping? || worker.Receiving? || worker.Got? || worker.Writing? || worker.Written?
  }

  /** The tag the worker holds and has not written. */
  function Unwritten(worker: Worker): seq<Tag> {
    if worker.Got? || worker.Writing? || (worker.Written? && !worker.ok) then [worker.tag] else []
  }

  predicate Drained(worker: Worker) {
    (worker.Leaving? || worker.Zeroing? || worker.Returning? || worker.Exited?) && worker.drained
  }

  /** Who may be doing what when the flag is up. */
  ghost predicate Protocol(s: State) {
    && (!s.sender.Idle? ==> s.open)
    && (s.failed && !s.worker.Exited? ==> !s.open)
    && (s.zeroed || s.worker.Zeroing? || s.worker.Discarding? ==> s.failed && !s.open)
    && (s.worker.Leaving? && !s.worker.drained ==> s.failed)
    && (!s.worker.Exited? ==> s.lost == 0)
    && (Drained(s.worker) ==> !s.open && s.queue == [] && s.output == s.accepted)
  }

  /** The counter covers what is still to be subtracted from it. */
  ghost predicate Covered(s: State) {
    if s.zeroed then s.queued == 0 && !InLoop(s.worker)
    else s.queued >= Bytes(s.queue) + InHand(s.worker) + InFlight(s.sender) + s.lost
  }

  ghost predicate Exact(s: State) {
    !s.failed ==> s.queued == Bytes(s.queue) + InHand(s.worker) + InFlight(s.sender) + s.lost
  }

  ghost predicate Fits(s: State) {
    && Bytes(s.queue) + InHand(s.worker) + s.lost + (if s.sender.Sending? then Size(s.sender.tag) else 0) <= s.max
    && |s.queue| <= SINK_QUEUE_MESSAGES
  }

  ghost predicate InOrder(s: State) {
    && s.output <= s.accepted
    && (InLoop(s.worker) ==> s.accepted == s.output + Unwritten(s.worker) + s.queue)
  }

  ghost predicate Inv(s: State) {
    Protocol(s) && Covered(s) && Exact(s) && Fits(s) && InOrder(s)
  }

  lemma {:induction false} BytesAppend(a: seq<Tag>, tag: Tag)
    ensures Bytes(a + [tag]) == Bytes(a) + Size(tag)
  {
    if a == [] {
      assert a + [tag] == [tag];
    } else {
      assert (a + [tag])[1..] == a[1..] + [tag];
      BytesAppend(a[1..], tag);
    }
  }

  lemma CoveredKept(s: State, step: Step)
    requires Inv(s) && Enabled(s, step)
    ensures Covered(Next(s, step))
  {
    if step.Push? { BytesAppend(s.queue, s.sender.tag); }
  }

  lemma ExactKept(s: State, step: Step)
    requires Inv(s) && Enabled(s, step)
    ensures Exact(Next(s, step))
  {
    if step.Push? { BytesAppend(s.queue, s.sender.tag); }
  }

  lemma FitsKept(s: State, step: Step)
    requires Inv(s) && Enabled(s, step)
    ensures Fits(Next(s, step))
  {
    if step.Push? { BytesAppend(s.queue, s.sender.tag); }
  }

  lemma OrderKept(s: State, step: Step)
    requires Inv(s) && Enabled(s, step)
    ensures InOrder(Next(s, step))
  {
  }

  lemma StepKeepsInv(s: State, step: Step)
    requires Inv(s) && Enabled(s, step)
    ensures Inv(Next(s, step))
  {
    CoveredKept(s, step);
    ExactKept(s, step);
    FitsKept(s, step);
    OrderKept(s, step);
  }

  ghost predicate RunFrom(s: State, steps: seq<Step>)
    decreases steps
  {
    steps == [] || (Enabled(s, steps[0]) && RunFrom(Next(s, steps[0]), steps[1..]))
  }

  ghost function End(s: State, steps: seq<Step>): State
    requires RunFrom(s, steps)
    decreases steps
  {
    if steps == [] then s else End(Next(s, steps[0]), steps[1..])
  }

  lemma {:induction false} RunKeepsInv(s: State, steps: seq<Step>)
    requires Inv(s) && RunFrom(s, steps)
    ensures Inv(End(s, steps)) && End(s, steps).max == s.max
    decreases steps
  {
    if steps != [] {
      StepKeepsInv(s, steps[0]);
      RunKeepsInv(Next(s, steps[0]), steps[1..]);
    }
  }

  /** In every interleaving: the counter never goes below zero, what was accepted and not yet dealt with fits the limit,
      and until the sink fails the counter is exactly what is queued, in a hand or on its way. */
  lemma BytesAccounted(max: nat, steps: seq<Step>)
    requires RunFrom(Init(max), steps)
    ensures var s := End(Init(max), steps);
            && 0 <= s.queued
            && Bytes(s.queue) + InHand(s.worker) <= max && |s.queue| <= SINK_QUEUE_MESSAGES
            && (!s.failed ==> s.queued == Bytes(s.queue) + InHand(s.worker) + InFlight(s.sender) + s.lost)
            && (s.lost > 0 ==> s.worker.Exited?)
  {
    RunKeepsInv(Init(max), steps);
  }

  /** The output is always the accepted tags in order up to some point, and all of them when the worker found the
      channel closed and empty. */
  lemma OutputIsAcceptedPrefix(max: nat, steps: seq<Step>)
    requires RunFrom(Init(max), steps)
    ensures var s := End(Init(max), steps);
            && s.output <= s.accepted
            && (s.worker.Exited? && s.worker.drained ==> s.output == s.accepted)
  {
    RunKeepsInv(Init(max), steps);
  }

  /** A sink that failed or was closed never accepts another tag. */
  lemma {:induction false} DisabledStaysDisabled(s: State, steps: seq<Step>)
    requires Inv(s) && (s.failed || !s.open || s.worker.Exited?) && RunFrom(s, steps)
    ensures End(s, steps).accepted == s.accepted
    ensures s.failed ==> End(s, steps).failed
    ensures !s.open ==> !End(s, steps).open
    decreases steps
  {
    if steps != [] {
      StepKeepsInv(s, steps[0]);
      DisabledStaysDisabled(Next(s, steps[0]), steps[1..]);
    }
  }

  /** Offering a tag with the worker standing still: a tag that fits is queued and counted; one that does not, or that
      finds the channel full or gone, disables the sink and leaves queue and counter alone; a sink that is closed or has
      failed takes nothing. */
  lemma OfferExactly(s: State, tag: Tag)
    requires Inv(s) && s.sender.Idle?
    ensures var s1 := Next(s, Offer(tag));
            if !s.open || s.failed then s1 == s.(open := false)
            else
              Enabled(s1, Add) &&
              var s2 := Next(s1, Add);
              if s.queued + Size(tag) > s.max then
                && Enabled(s2, TakeBack) && !Enabled(s2, Push)
                && var s3 := Next(s2, TakeBack);
                && !Enabled(s3, Offer(tag)) && Enabled(s3, Disable)
                && Next(s3, Disable) == s.(failed := true, open := false)
              else
                Enabled(s2, Push) &&
                var s3 := Next(s2, Push);
                if s.worker.Exited? || |s.queue| >= SINK_QUEUE_MESSAGES then
                  && Enabled(s3, TakeBack)
                  && Next(Next(s3, TakeBack), Disable) == s.(failed := true, open := false)
                else
                  s3 == s.(queued := s.queued + Size(tag), queue := s.queue + [tag], accepted := s.accepted + [tag])
  {
  }

  /** Once the sink has failed, at most the one tag already past the second flag test is still written. */
  lemma {:induction false} FailedSinkWritesAtMostOne(s: State, steps: seq<Step>)
    requires s.failed && RunFrom(s, steps)
    ensures End(s, steps).failed && s.output <= End(s, steps).output
    ensures |End(s, steps).output| <= |s.output| + if s.worker.Writing? then 1 else 0
    decreases steps
  {
    if steps != [] { FailedSinkWritesAtMostOne(Next(s, steps[0]), steps[1..]); }
  }

  /** Stopping closes the channel and nothing more; giving up on the worker, and a worker's own error, raise the flag
      and nothing more. */
  lemma StoppingExactly(s: State)
    requires s.sender.Idle?
    ensures Enabled(s, Close) && Next(s, Close) == s.(open := false)
    ensures !s.open ==> Enabled(s, Expire) && Next(s, Expire) == s.(failed := true)
    ensures s.worker.Exited? ==> Enabled(s, ReportFailure) && Next(s, ReportFailure) == s.(failed := true)
  {
  }

  /** Steps a worker has left once the sink has failed. */
  function LastSteps(worker: Worker): nat {
    match worker
    case Receiving => 8
    case Got(_) => 7
    case Writing(_) => 6
    case Written(_, _) | Starting => 5
    case Looping | Discarding => 4
    case Leaving(_) => 3
    case Zeroing(_) => 2
    case Returning(_) => 1
    case Exited(_) => 0
  }

  predicate ByWorker(step: Step) {
    || step.Begin? || step.Poll? || step.Timeout? || step.Receive? || step.Hangup? || step.Recheck? || step.Write?
    || step.Subtract? || step.Leave? || step.Zero? || step.Return?
  }

  /** Once the sink has failed every step of the worker brings it nearer its end, whatever its reads and writes do. */
  lemma FailedWorkerDescends(s: State, step: Step)
    requires s.failed && ByWorker(step) && Enabled(s, step)
    ensures LastSteps(Next(s, step).worker) < LastSteps(s.worker)
  {
  }

  /** And a worker that finds the flag up at its loop resets the counter and lets go of the channel. */
  lemma FailedLoopResets(s: State)
    requires s.failed && s.worker.Looping?
    ensures Enabled(s, Poll)
    ensures var s1 := Next(s, Poll);
            Enabled(s1, Leave) &&
            var s2 := Next(s1, Leave);
            Enabled(s2, Zero) &&
            var s3 := Next(s2, Zero);
            Enabled(s3, Return) &&
            var s4 := Next(s3, Return);
            s4.worker == Exited(false) && s4.queued == 0 && s4.queue == [] && s4.output == s.output
  {
  }

  /** Closed, not failed, and no write has gone wrong. */
  predicate Draining(s: State) {
    && !s.open && !s.failed
    && ((InLoop(s.worker) && !(s.worker.Written? && !s.worker.ok)) || Drained(s.worker))
  }

  /** The worker's next step when writes succeed. */
  function WorkerStep(s: State): Step
    requires Draining(s) && !s.worker.Zeroing? && !s.worker.Exited?
  {
    match s.worker
    case Starting => Begin(true)
    case Looping => Poll
    case Receiving => if s.queue == [] then Hangup else Receive
    case Got(_) => Recheck
    case Writing(_) => Write(true)
    case Written(_, _) => Subtract
    case Leaving(_) => Leave
    case Returning(_) => Return
  }

  function StepsLeft(s: State): nat {
    5 * |s.queue| +
    match s.worker
    case Starting => 9
    case Got(_) => 8
    case Writing(_) => 7
    case Written(_, _) => 6
    case Looping => 5
    case Receiving => 4
    case Leaving(_) => 3
    case Returning(_) => 2
    case _ => 1
  }

  lemma WorkerStepDrains(s: State)
    requires Inv(s) && Draining(s) && !s.worker.Exited?
    ensures Enabled(s, WorkerStep(s))
    ensures var s' := Next(s, WorkerStep(s)); Draining(s') && StepsLeft(s') < StepsLeft(s) && s'.accepted == s.accepted
  {
  }

  /** Of a sink closed without failing nothing is lost: the worker, whose writes succeed, ends with all of it
      written. */
  lemma {:induction false} ClosedSinkDrains(s: State) returns (steps: seq<Step>)
    requires Inv(s) && Draining(s)
    ensures RunFrom(s, steps)
    ensures var end := End(s, steps); end.worker == Exited(true) && end.output == s.accepted && end.queued == end.lost
    decreases StepsLeft(s)
  {
    if s.worker.Exited? {
      steps := [];
    } else {
      var step := WorkerStep(s);
      WorkerStepDrains(s);
      StepKeepsInv(s, step);
      var rest := ClosedSinkDrains(Next(s, step));
      steps := [step] + rest;
      assert steps[1..] == rest;
    }
  }
}
