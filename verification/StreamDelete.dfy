/**
 Deleting a stream: DELETE handlers, background finalize loops and re-creations of one stream id, interleaved one
 database access or marker update at a time (standalone coordinator). A delete captures the row's creation time and
 token when it is accepted; begin-delete is fenced by them, finalize and re-enable are not.
 */
module StreamDelete {
  import opened Basics

  const FINALIZE_ATTEMPTS: nat := 6

  /** Each row incarnation gets a token never used before. */
  datatype Row = Row(token: nat, createdAt: int, enabled: bool, pending: bool)

  datatype Identity = Identity(token: nat, createdAt: int)

  datatype Pc =
    | Arrive | Lookup | Mark | Begin | Drain
    | Finalize(async: bool) | Confirm(async: bool)
    | RollbackRead | RollbackEnable
    | Recheck | Rebegin | Retrying
    | GiveUpBegin | GiveUpIdentity | GiveUpEnabled | GiveUpPending | GiveUpDisable
    | Clearing(retry: bool) | Done

  /** `finalizes` counts the finalize calls made. */
  datatype Task = Task(pc: Pc, id: Identity, attempt: nat, finalizes: nat)

  /** `accepted`: the tokens captured by deletes past their lookup. `used`: the tokens of all rows ever created. */
  datatype State = State(
    row: Option<Row>, deletedMark: bool, stickyMark: bool, tasks: map<nat, Task>, accepted: set<nat>, used: set<nat>)

  const INIT: State := State(None, false, false, map[], {}, {})

  /** `fault`: SQLite fails this access. `live`: sessions are still attached when the drain is checked. */
  datatype Action =
    | Create(token: nat, createdAt: int, enabled: bool)
    | Request(task: nat)
    | Act(task: nat, fault: bool, live: bool)

  predicate Matches(row: Option<Row>, id: Identity) {
    row.Some? && row.value.token == id.token && row.value.createdAt == id.createdAt
  }

  /** The fenced begin-delete: disable and mark pending, only while the captured row is still there. */
  function Begun(row: Option<Row>, id: Identity, fault: bool): Option<Row> {
    if !fault && Matches(row, id) then Some(row.value.(enabled := false, pending := true)) else row
  }

  /** `stream_set_enabled`, which clears the pending flag whichever way it sets `enabled`. */
  function SetEnabled(row: Option<Row>, enabled: bool, fault: bool): Option<Row> {
    if !fault && row.Some? then Some(row.value.(enabled := enabled, pending := false)) else row
  }

  /** `stream_delete_if_pending`. */
  function Removed(row: Option<Row>, fault: bool): Option<Row> {
    if !fault && row.Some? && row.value.pending then None else row
  }

  /** The next place of a task at `pc`, from what it reads. */
  function Goto(s: State, t: Task, fault: bool, live: bool): Pc {
    var there := Matches(s.row, t.id);
    match t.pc
    case Arrive => if s.stickyMark then Done else Lookup
    case Lookup => if fault || s.row.None? then Done else Mark
    case Mark => Begin
    case Begin => if !fault && there then Drain else Clearing(false)
    case Drain => if live then Recheck else Finalize(false)
    case Finalize(async) =>
      if fault then (if async then Retrying else RollbackRead)
      else if Removed(s.row, false) != s.row then Clearing(false) else Confirm(async)
    case Confirm(async) =>
      if fault then (if async then Retrying else RollbackRead)
      else Clearing(s.row.Some? && async)
    case RollbackRead => if !fault && s.row.Some? then RollbackEnable else Clearing(false)
    case RollbackEnable => Clearing(false)
    case Recheck => if !fault && !there then Clearing(false) else Rebegin
    case Rebegin => if !fault && s.row.Some? && !there then Clearing(false) else Finalize(true)
    case Retrying => if t.attempt < FINALIZE_ATTEMPTS then Recheck else GiveUpBegin
    case GiveUpBegin => if fault then GiveUpIdentity else Clearing(false)
    case GiveUpIdentity => if !fault && there then GiveUpEnabled else Clearing(false)
    case GiveUpEnabled => if !fault && s.row.Some? && !s.row.value.enabled then GiveUpPending else GiveUpDisable
    case GiveUpPending => if !fault && s.row.Some? && s.row.value.pending then Clearing(false) else GiveUpDisable
    case GiveUpDisable => Clearing(false)
    case Clearing(retry) => if retry then Retrying else Done
    case Done => Done
  }

  function RowAfter(s: State, t: Task, fault: bool): Option<Row> {
    match t.pc
    case Begin | Rebegin | GiveUpBegin => Begun(s.row, t.id, fault)
    case Finalize(_) => Removed(s.row, fault)
    case RollbackEnable => SetEnabled(s.row, true, fault)
    case GiveUpDisable => SetEnabled(s.row, false, fault)
    case _ => s.row
  }

  function TaskAfter(s: State, t: Task, fault: bool, live: bool): Task {
    var pc := Goto(s, t, fault, live);
    match t.pc
    case Lookup =>
      if pc == Mark then t.(pc := pc, id := Identity(s.row.value.token, s.row.value.createdAt)) else t.(pc := pc)
    case Drain => t.(pc := pc, attempt := 1)
    case Finalize(_) => t.(pc := pc, finalizes := t.finalizes + 1)
    case Retrying => t.(pc := pc, attempt := if pc == Recheck then t.attempt + 1 else t.attempt)
    case _ => t.(pc := pc)
  }

  function Next(s: State, a: Action): State
    requires Enabled(s, a)
  {
    match a
    case Create(token, createdAt, enabled) =>
      s.(row := Some(Row(token, createdAt, enabled, false)), used := s.used + {token})
    case Request(task) => s.(tasks := s.tasks[task := Task(Arrive, Identity(0, 0), 0, 0)])
    case Act(task, fault, live) =>
      var t := s.tasks[task];
      var t' := TaskAfter(s, t, fault, live);
      var marks := match t.pc
        case Mark => Some(true)
        case Retrying => if t'.pc == Recheck then Some(true) else None
        case Clearing(_) => Some(false)
        case _ => None;
      s.(row := RowAfter(s, t, fault),
         deletedMark := if marks.Some? then marks.value else s.deletedMark,
         stickyMark := if marks.Some? then marks.value else s.stickyMark,
         tasks := s.tasks[task := t'],
         accepted := if t.pc == Lookup && t'.pc == Mark then s.accepted + {t'.id.token} else s.accepted)
  }

  predicate Enabled(s: State, a: Action) {
    match a
    case Create(token, _, _) => s.row.None? && token !in s.used
    case Request(task) => task !in s.tasks
    case Act(task, _, _) => task in s.tasks && s.tasks[task].pc != Done
  }

  predicate RunFrom(s: State, actions: seq<Action>)
    decreases actions
  {
    actions == [] || (Enabled(s, actions[0]) && RunFrom(Next(s, actions[0]), actions[1..]))
  }

  function End(s: State, actions: seq<Action>): State
    requires RunFrom(s, actions)
    decreases actions
  {
    if actions == [] then s else End(Next(s, actions[0]), actions[1..])
  }

  // ----- The fence

  predicate Captured(t: Task) {
    !t.pc.Arrive? && !t.pc.Lookup? && !t.pc.Done?
  }

  ghost predicate Inv(s: State) {
    && s.accepted <= s.used
    && (s.row.Some? ==> s.row.value.token in s.used)
    && (s.row.Some? && s.row.value.pending ==> s.row.value.token in s.accepted)
    && (forall k | k in s.tasks && Captured(s.tasks[k]) :: s.tasks[k].id.token in s.accepted)
    && (forall k | k in s.tasks :: Counted(s.tasks[k]))
  }

  lemma StepKeepsTokens(s: State, a: Action)
    requires Inv(s) && Enabled(s, a)
    ensures var s' := Next(s, a);
            && s'.accepted <= s'.used
            && (s'.row.Some? ==> s'.row.value.token in s'.used)
            && (s'.row.Some? && s'.row.value.pending ==> s'.row.value.token in s'.accepted)
  {
    if a.Act? && Captured(s.tasks[a.task]) { assert s.tasks[a.task].id.token in s.accepted; }
  }

  lemma StepKeepsCaptures(s: State, a: Action, k: nat)
    requires Inv(s) && Enabled(s, a) && k in Next(s, a).tasks
    ensures var s' := Next(s, a); Captured(s'.tasks[k]) ==> s'.tasks[k].id.token in s'.accepted
    ensures Counted(Next(s, a).tasks[k])
  {
    if k in s.tasks && Captured(s.tasks[k]) { assert s.tasks[k].id.token in s.accepted; }
    if a.Act? { TaskDescends(s, s.tasks[a.task], a.fault, a.live); }
  }

  lemma StepKeepsInv(s: State, a: Action)
    requires Inv(s) && Enabled(s, a)
    ensures Inv(Next(s, a))
  {
    var s' := Next(s, a);
    StepKeepsTokens(s, a);
    forall k | k in s'.tasks
      ensures (Captured(s'.tasks[k]) ==> s'.tasks[k].id.token in s'.accepted) && Counted(s'.tasks[k])
    {
      StepKeepsCaptures(s, a, k);
    }
  }

  lemma {:induction false} RunKeepsInv(s: State, actions: seq<Action>)
    requires Inv(s) && RunFrom(s, actions)
    ensures Inv(End(s, actions))
    decreases actions
  {
    if actions != [] {
      StepKeepsInv(s, actions[0]);
      RunKeepsInv(Next(s, actions[0]), actions[1..]);
    }
  }

  /** In every interleaving: a row becomes pending only through a delete that captured that very row, and a row is
      removed only if some accepted delete captured its token and it had been marked pending. */
  lemma OnlyAcceptedRowsAreDeleted(actions: seq<Action>, a: Action)
    requires RunFrom(INIT, actions) && Enabled(End(INIT, actions), a)
    ensures var s := End(INIT, actions);
            var s' := Next(s, a);
            s.row.Some? ==>
              && (s'.row.None? ==> s.row.value.pending && s.row.value.token in s.accepted)
              && (s'.row.Some? ==> s'.row.value.token == s.row.value.token)
              && (s'.row.Some? && s'.row.value.pending && !s.row.value.pending ==>
                    a.Act? && Matches(s.row, s.tasks[a.task].id) && s.row.value.token in s.accepted)
  {
    RunKeepsInv(INIT, actions);
    var s := End(INIT, actions);
    StepKeepsInv(s, a);
    if a.Act? && Captured(s.tasks[a.task]) { assert s.tasks[a.task].id.token in s.accepted; }
  }

  /** The fence holds for begin, not for finalize: a delete of an older row removes the replacement exactly when a
      newer accepted delete has marked it pending, and never touches it otherwise. */
  lemma OlderDeleteAndReplacement(s: State, task: nat, live: bool)
    requires Inv(s) && task in s.tasks && Captured(s.tasks[task])
    requires s.row.Some? && s.tasks[task].id.token != s.row.value.token
    ensures var s' := Next(s, Act(task, false, live));
            && (s'.row.None? <==> s.tasks[task].pc.Finalize? && s.row.value.pending)
            && (s'.row.None? ==> s.row.value.token in s.accepted)
            && (s'.row.Some? && s'.row.value.pending ==> s.row.value.pending)
  {
  }

  ghost predicate Solo(s: State) {
    forall j, k | j in s.tasks && k in s.tasks && Captured(s.tasks[j]) && Captured(s.tasks[k]) :: j == k
  }

  /** No two deletes hold a captured row at once, in any state of the run. */
  ghost predicate SoloRun(s: State, actions: seq<Action>)
    requires RunFrom(s, actions)
    decreases actions
  {
    Solo(s) && (actions == [] || SoloRun(Next(s, actions[0]), actions[1..]))
  }

  /** A pending row is the row of every delete that holds one. */
  ghost predicate OwnPending(s: State) {
    forall k | k in s.tasks && Captured(s.tasks[k]) && s.row.Some? && s.row.value.pending ::
      s.row.value.token == s.tasks[k].id.token
  }

  /** A row is pending after a task's step only if it was, or the task has captured it. */
  lemma PendingByCapture(s: State, t: Task, fault: bool)
    ensures var row := RowAfter(s, t, fault);
            row.Some? && row.value.pending ==>
              && s.row.Some? && row.value.token == s.row.value.token
              && (s.row.value.pending || (Captured(t) && t.id.token == row.value.token))
  {
  }

  /** A task captures the row it looks up, and keeps what it captured. */
  lemma CaptureIsLookup(s: State, t: Task, fault: bool, live: bool)
    requires Captured(TaskAfter(s, t, fault, live))
    ensures var t' := TaskAfter(s, t, fault, live);
            if Captured(t) then t'.id == t.id
            else s.row.Some? && t'.id.token == s.row.value.token && RowAfter(s, t, fault) == s.row
  {
  }

  lemma ActKeepsOwnPending(s: State, a: Action)
    requires OwnPending(s) && Enabled(s, a) && a.Act? && Solo(s) && Solo(Next(s, a))
    ensures OwnPending(Next(s, a))
  {
    var s', t := Next(s, a), s.tasks[a.task];
    PendingByCapture(s, t, a.fault);
    if Captured(s'.tasks[a.task]) { CaptureIsLookup(s, t, a.fault, a.live); }
    forall k | k in s'.tasks && Captured(s'.tasks[k]) && s'.row.Some? && s'.row.value.pending
      ensures s'.row.value.token == s'.tasks[k].id.token
    {
      if k != a.task { assert s'.tasks[k] == s.tasks[k] && !Captured(t); }
    }
  }

  lemma StepKeepsOwnPending(s: State, a: Action)
    requires OwnPending(s) && Enabled(s, a) && Solo(s) && Solo(Next(s, a))
    ensures OwnPending(Next(s, a))
  {
    if a.Act? { ActKeepsOwnPending(s, a); }
  }

  lemma {:induction false} SoloRunKeepsOwnPending(s: State, actions: seq<Action>)
    requires OwnPending(s) && RunFrom(s, actions) && SoloRun(s, actions)
    ensures OwnPending(End(s, actions))
    decreases actions
  {
    if actions != [] {
      StepKeepsOwnPending(s, actions[0]);
      SoloRunKeepsOwnPending(Next(s, actions[0]), actions[1..]);
    }
  }

  /** Over whole runs: while deletes of the id do not overlap, a delete removes only the row it captured, so no older
      delete removes a replacement. */
  lemma SoloDeletesRemoveTheirOwnRow(actions: seq<Action>, a: Action)
    requires RunFrom(INIT, actions) && SoloRun(INIT, actions) && Enabled(End(INIT, actions), a)
    ensures var s := End(INIT, actions);
            s.row.Some? && Next(s, a).row.None? ==> a.Act? && s.tasks[a.task].id.token == s.row.value.token
  {
    SoloRunKeepsOwnPending(INIT, actions);
  }

  // ----- The pending flag while a delete is being finished

  /** The row of `token` is gone, or disabled and pending. */
  predicate GoneOrPending(s: State, token: nat) {
    s.row.Some? && s.row.value.token == token ==> !s.row.value.enabled && s.row.value.pending
  }

  predicate GivingUp(s: State) {
    exists k | k in s.tasks :: s.tasks[k].pc == GiveUpDisable
  }

  /** Nobody re-enables, and the two reads before a give-up's plain disable succeed. */
  predicate Quiet(s: State, a: Action) {
    a.Act? && a.task in s.tasks ==>
      && s.tasks[a.task].pc != RollbackEnable
      && (s.tasks[a.task].pc in {GiveUpEnabled, GiveUpPending} ==> !a.fault)
  }

  predicate QuietRun(s: State, actions: seq<Action>)
    requires RunFrom(s, actions)
    decreases actions
  {
    actions == [] || (Quiet(s, actions[0]) && QuietRun(Next(s, actions[0]), actions[1..]))
  }

  ghost predicate Guarded(s: State, token: nat) {
    && token in s.used
    && (s.row.Some? && s.row.value.token == token ==> !s.row.value.enabled && s.row.value.pending && !GivingUp(s))
  }

  lemma StepKeepsGuard(s: State, a: Action, token: nat)
    requires Guarded(s, token) && Enabled(s, a) && Quiet(s, a)
    ensures Guarded(Next(s, a), token)
  {
    var s' := Next(s, a);
    if s'.row.Some? && s'.row.value.token == token {
      assert s.row.Some? && s.row.value.token == token;
      forall k | k in s'.tasks ensures s'.tasks[k].pc != GiveUpDisable {
        if k in s.tasks { assert s.tasks[k].pc != GiveUpDisable; }
      }
    }
  }

  lemma {:induction false} RunKeepsGuard(s: State, actions: seq<Action>, token: nat)
    requires Guarded(s, token) && RunFrom(s, actions) && QuietRun(s, actions)
    ensures Guarded(End(s, actions), token)
    decreases actions
  {
    if actions != [] {
      StepKeepsGuard(s, actions[0], token);
      RunKeepsGuard(Next(s, actions[0]), actions[1..], token);
    }
  }

  lemma OneStep(s: State, a: Action)
    requires Enabled(s, a)
    ensures RunFrom(s, [a]) && End(s, [a]) == Next(s, a) && (QuietRun(s, [a]) <==> Quiet(s, a))
  {
    var s' := Next(s, a);
    assert [a][1..] == [] && [a][0] == a;
    assert RunFrom(s', []) && End(s', []) == s' && QuietRun(s', []);
  }

  ghost predicate StaysPending(s: State, token: nat) {
    forall actions :: RunFrom(s, actions) && QuietRun(s, actions) ==> GoneOrPending(End(s, actions), token)
  }

  /** Once a begin has applied, and nobody re-enables, the row stays gone or disabled and pending in every run,
      exactly when no other delete is already committed to its give-up disable. */
  lemma BegunStaysPendingExactly(s: State)
    requires s.row.Some? && !s.row.value.enabled && s.row.value.pending && s.row.value.token in s.used
    ensures StaysPending(s, s.row.value.token) <==> !GivingUp(s)
  {
    var token := s.row.value.token;
    if GivingUp(s) {
      var k :| k in s.tasks && s.tasks[k].pc == GiveUpDisable;
      var a := Act(k, false, false);
      var s' := Next(s, a);
      assert s'.row == Some(s.row.value.(pending := false));
      OneStep(s, a);
      assert !GoneOrPending(End(s, [a]), token);
    } else {
      forall actions | RunFrom(s, actions) && QuietRun(s, actions) ensures GoneOrPending(End(s, actions), token) {
        RunKeepsGuard(s, actions, token);
      }
    }
  }

  // ----- The loop ends

  /** Finalize calls made so far, by place and attempt. */
  predicate Counted(t: Task) {
    match t.pc
    case Arrive | Lookup | Mark | Begin | Drain => t.finalizes == 0
    case Finalize(false) => t.finalizes == 0
    case Finalize(true) | Recheck | Rebegin => t.finalizes + 1 == t.attempt && t.attempt <= FINALIZE_ATTEMPTS
    case Confirm(true) | Retrying | Clearing(true) => t.finalizes == t.attempt && t.attempt <= FINALIZE_ATTEMPTS
    case _ => t.finalizes <= FINALIZE_ATTEMPTS
  }

  function Stage(pc: Pc): nat {
    match pc
    case Arrive => 17 case Lookup => 16 case Mark => 15 case Begin => 14 case Drain => 13
    case Recheck => 12 case Rebegin => 11 case Finalize(_) => 10 case Confirm(_) => 9
    case Clearing(true) => 8 case Retrying => 7
    case GiveUpBegin => 6 case GiveUpIdentity => 5 case GiveUpEnabled => 4 case GiveUpPending => 3
    case GiveUpDisable => 2 case RollbackRead => 3 case RollbackEnable => 2
    case Clearing(false) => 1 case Done => 0
  }

  function Attempts(t: Task): nat {
    match t.pc
    case Arrive | Lookup | Mark | Begin | Drain => FINALIZE_ATTEMPTS
    case Recheck | Rebegin | Finalize(true) | Confirm(true) | Clearing(true) | Retrying =>
      if t.attempt <= FINALIZE_ATTEMPTS then FINALIZE_ATTEMPTS - t.attempt else 0
    case _ => 0
  }

  /** Falls with every step a task takes, whatever the others and the storage do. */
  function Rank(t: Task): nat {
    18 * Attempts(t) + Stage(t.pc)
  }

  lemma TaskDescends(s: State, t: Task, fault: bool, live: bool)
    requires t.pc != Done && Counted(t)
    ensures var t' := TaskAfter(s, t, fault, live);
            Counted(t') && Rank(t') < Rank(t)
  {
  }

  /** Every step of a task brings it closer to its end, with at most six finalize calls, and both in-memory markers
      are clear when a delete that set them ends. */
  lemma DeletesEnd(s: State, task: nat, fault: bool, live: bool)
    requires task in s.tasks && s.tasks[task].pc != Done && Counted(s.tasks[task])
    ensures var s' := Next(s, Act(task, fault, live));
            var t, t' := s.tasks[task], s'.tasks[task];
            && Counted(t') && Rank(t') < Rank(t) && t'.finalizes <= FINALIZE_ATTEMPTS
            && (t'.pc == Done && Captured(t) ==> !s'.stickyMark && !s'.deletedMark)
  {
    TaskDescends(s, s.tasks[task], fault, live);
  }

  // ----- A delete left alone removes its row

  /** Where the row stands as task `k`, alone, goes from its arrival to its end. */
  predicate OnCourse(s: State, k: nat) {
    k in s.tasks &&
    var t := s.tasks[k];
    match t.pc
    case Arrive => s.row.Some? && !s.stickyMark
    case Lookup => s.row.Some?
    case Mark | Begin => Matches(s.row, t.id)
    case Drain | Finalize(false) => Matches(s.row, t.id) && s.row.value.pending
    case Recheck | Rebegin | Finalize(true) =>
      Matches(s.row, t.id) && s.row.value.pending && t.attempt <= FINALIZE_ATTEMPTS
    case Retrying => Matches(s.row, t.id) && s.row.value.pending && t.attempt < FINALIZE_ATTEMPTS
    case Clearing(false) | Done => s.row.None?
    case _ => false
  }

  /** Faults a background delete gets over: in its re-checks, and in all finalizes but the last. */
  predicate Bearable(t: Task, fault: bool) {
    fault ==> t.pc == Recheck || t.pc == Rebegin || (t.pc == Finalize(true) && t.attempt < FINALIZE_ATTEMPTS)
  }

  lemma StaysOnCourse(s: State, k: nat, fault: bool, live: bool)
    requires OnCourse(s, k) && s.tasks[k].pc != Done && Bearable(s.tasks[k], fault)
    ensures OnCourse(Next(s, Act(k, fault, live)), k)
  {
  }

  /** The actions are all of task `k`, and its faults bearable. */
  predicate AloneRun(s: State, k: nat, actions: seq<Action>)
    requires RunFrom(s, actions)
    decreases actions
  {
    actions == [] ||
    (&& actions[0].Act? && actions[0].task == k && Bearable(s.tasks[k], actions[0].fault)
     && AloneRun(Next(s, actions[0]), k, actions[1..]))
  }

  lemma {:induction false} AloneRunStaysOnCourse(s: State, k: nat, actions: seq<Action>)
    requires RunFrom(s, actions) && AloneRun(s, k, actions) && OnCourse(s, k)
    ensures OnCourse(End(s, actions), k)
    decreases actions
  {
    if actions != [] {
      StaysOnCourse(s, k, actions[0].fault, actions[0].live);
      AloneRunStaysOnCourse(Next(s, actions[0]), k, actions[1..]);
    }
  }

  /** A delete of an existing row, with no other at work and no unbearable fault, ends with the row gone, whether or not
      its drain found sessions. */
  lemma AloneDeleteRemoves(s: State, k: nat, actions: seq<Action>)
    requires s.row.Some? && !s.stickyMark && k in s.tasks && s.tasks[k].pc == Arrive
    requires RunFrom(s, actions) && AloneRun(s, k, actions)
    ensures k in End(s, actions).tasks && (End(s, actions).tasks[k].pc == Done ==> End(s, actions).row.None?)
  {
    AloneRunStaysOnCourse(s, k, actions);
  }

  // ----- What a delete does when others have been at its row

  /** Task `k` acts alone and without faults, `n` times. */
  function Acting(s: State, k: nat, n: nat): State
    decreases n
  {
    if n == 0 || k !in s.tasks || s.tasks[k].pc == Done then s else Acting(Next(s, Act(k, false, false)), k, n - 1)
  }

  /** A request that finds a delete of the id under way is turned away and changes nothing else. */
  lemma SecondRequestTurnedAway(s: State, k: nat)
    requires k in s.tasks && s.tasks[k].pc == Arrive
    ensures var s' := Next(s, Act(k, false, false));
            s' == s.(tasks := s.tasks[k := s.tasks[k].(pc := if s.stickyMark then Done else Lookup)])
  {
  }

  /** A background delete whose row has been replaced, or is gone, ends without touching what is there. */
  lemma ReplacedRowEndsDelete(s: State, k: nat)
    requires k in s.tasks && s.tasks[k].pc == Recheck && !Matches(s.row, s.tasks[k].id)
    ensures var s' := Acting(s, k, 2);
            s'.row == s.row && k in s'.tasks && s'.tasks[k].pc == Done && !s'.stickyMark && !s'.deletedMark
  {
    var s1 := Next(s, Act(k, false, false));
    assert s1.tasks[k].pc == Clearing(false);
    assert Acting(s, k, 2) == Acting(s1, k, 1) == Acting(Next(s1, Act(k, false, false)), k, 0);
  }

  lemma GoesBackToRecheck(s: State, k: nat)
    requires k in s.tasks && s.tasks[k].pc == Confirm(true) && s.row.Some? && s.tasks[k].attempt < FINALIZE_ATTEMPTS
    ensures var s', t := Acting(s, k, 3), s.tasks[k];
            && s'.row == s.row && s'.stickyMark && s'.deletedMark
            && k in s'.tasks && s'.tasks[k] == t.(pc := Recheck, attempt := t.attempt + 1)
  {
    var a := Act(k, false, false);
    var s1 := Next(s, a);
    assert s1.tasks[k].pc == Clearing(true);
    var s2 := Next(s1, a);
    assert s2.tasks[k].pc == Retrying;
    assert Acting(s, k, 3) == Acting(s1, k, 2) == Acting(s2, k, 1) == Acting(Next(s2, a), k, 0);
  }

  lemma BeginsAgain(s: State, k: nat)
    requires k in s.tasks && s.tasks[k].pc == Recheck && Matches(s.row, s.tasks[k].id)
    ensures var s' := Acting(s, k, 2);
            && s'.row == Some(s.row.value.(enabled := false, pending := true))
            && s'.stickyMark == s.stickyMark && s'.deletedMark == s.deletedMark
            && k in s'.tasks && s'.tasks[k] == s.tasks[k].(pc := Finalize(true))
  {
    var a := Act(k, false, false);
    var s1 := Next(s, a);
    assert s1.tasks[k].pc == Rebegin;
    assert Acting(s, k, 2) == Acting(s1, k, 1) == Acting(Next(s1, a), k, 0);
  }

  /** One that finds its row re-enabled after a finalize begins on it again: the row is disabled and pending once more,
      and the next attempt is due. */
  lemma ReenabledRowIsBegunAgain(s: State, k: nat)
    requires k in s.tasks && s.tasks[k].pc == Confirm(true) && Matches(s.row, s.tasks[k].id)
    requires s.tasks[k].attempt < FINALIZE_ATTEMPTS
    ensures var s', t := Acting(Acting(s, k, 3), k, 2), s.tasks[k];
            && s'.row == Some(s.row.value.(enabled := false, pending := true)) && s'.stickyMark && s'.deletedMark
            && k in s'.tasks && s'.tasks[k] == t.(pc := Finalize(true), attempt := t.attempt + 1)
  {
    GoesBackToRecheck(s, k);
    BeginsAgain(Acting(s, k, 3), k);
  }

  /** One that gives up, and can write, leaves its row disabled and pending for a later delete. */
  lemma GivenUpRowStaysPending(s: State, k: nat)
    requires k in s.tasks && s.tasks[k].pc == Retrying && Matches(s.row, s.tasks[k].id)
    requires s.tasks[k].attempt >= FINALIZE_ATTEMPTS
    ensures var s' := Acting(s, k, 3);
            && s'.row == Some(s.row.value.(enabled := false, pending := true))
            && k in s'.tasks && s'.tasks[k].pc == Done && !s'.stickyMark && !s'.deletedMark
  {
    var a := Act(k, false, false);
    var s1 := Next(s, a);
    var s2 := Next(s1, a);
    assert s2.tasks[k].pc == Clearing(false);
    assert Acting(s, k, 3) == Acting(s1, k, 2) == Acting(s2, k, 1) == Acting(Next(s2, a), k, 0);
  }

  class Coordinator {
    var s: State

    constructor ()
      ensures s == INIT && Inv(s)
    {
      s := INIT;
    }

    /** What the other tasks do between two accesses of task `k`. */
    method Others(k: nat, actions: seq<Action>)
      requires Inv(s) && k in s.tasks
      modifies this
      ensures Inv(s) && k in s.tasks && s.tasks[k] == old(s.tasks[k])
    {
      for i := 0 to |actions|
        invariant Inv(s) && k in s.tasks && s.tasks[k] == old(s.tasks[k])
      {
        var a := actions[i];
        if Enabled(s, a) && !(a.Act? && a.task == k) {
          StepKeepsInv(s, a);
          s := Next(s, a);
        }
      }
    }

    /** One access of task `k`. */
    method Own(k: nat, fault: bool, live: bool)
      requires Inv(s) && k in s.tasks && s.tasks[k].pc != Done
      modifies this
      ensures Inv(s) && k in s.tasks && Rank(s.tasks[k]) < Rank(old(s.tasks[k]))
      ensures Captured(old(s.tasks[k])) && s.tasks[k].pc == Done ==> !s.stickyMark && !s.deletedMark
      ensures Captured(old(s.tasks[k])) && s.tasks[k].pc != Done ==> Captured(s.tasks[k])
      ensures !Captured(old(s.tasks[k])) && !Captured(s.tasks[k]) ==>
                s.tasks[k].pc in {Lookup, Done} && s.tasks[k].finalizes == old(s.tasks[k]).finalizes
      ensures s == Next(old(s), Act(k, fault, live))
    {
      var a := Act(k, fault, live);
      StepKeepsInv(s, a);
      DeletesEnd(s, k, fault, live);
      s := Next(s, a);
    }

    /** Runs a delete to its end against any storage faults and any interference: it ends, after at most six finalize
        calls, and if it `captured` a row, without which it sets no marker and finalizes nothing, both markers are
        clear. */
    method RunDelete(k: nat, faults: nat -> bool, live: nat -> bool, others: nat -> seq<Action>)
      returns (steps: nat, captured: bool)
      requires Inv(s) && k in s.tasks && s.tasks[k].pc != Done
      modifies this
      ensures Inv(s) && k in s.tasks && s.tasks[k].pc == Done && s.tasks[k].finalizes <= FINALIZE_ATTEMPTS
      ensures steps <= Rank(old(s.tasks[k]))
      ensures captured ==> !s.stickyMark && !s.deletedMark
      ensures Captured(old(s.tasks[k])) || s.tasks[k].finalizes > 0 ==> captured
    {
      steps, captured := 0, Captured(s.tasks[k]);
      while s.tasks[k].pc != Done
        invariant Inv(s) && k in s.tasks && steps + Rank(s.tasks[k]) <= Rank(old(s.tasks[k]))
        invariant captured && s.tasks[k].pc != Done ==> Captured(s.tasks[k])
        invariant captured && s.tasks[k].pc == Done ==> !s.stickyMark && !s.deletedMark
        invariant !captured ==> s.tasks[k].finalizes == 0 && s.tasks[k].pc in {Arrive, Lookup, Done}
        invariant Captured(old(s.tasks[k])) ==> captured
        decreases Rank(s.tasks[k])
      {
        Others(k, others(steps));
        Own(k, faults(steps), live(steps));
        steps, captured := steps + 1, captured || Captured(s.tasks[k]);
      }
    }

    /** Runs the delete of an existing row with nobody else at work and no fault: it ends with the row gone and both
        markers clear, whatever its drain finds. */
    method RunAlone(k: nat, live: nat -> bool)
      requires Inv(s) && s.row.Some? && !s.stickyMark && k in s.tasks && s.tasks[k].pc == Arrive
      modifies this
      ensures Inv(s) && k in s.tasks && s.tasks[k].pc == Done
      ensures s.row.None? && !s.stickyMark && !s.deletedMark
    {
      var steps := 0;
      while s.tasks[k].pc != Done
        invariant Inv(s) && OnCourse(s, k)
        invariant s.tasks[k].pc.Arrive? || s.tasks[k].pc.Lookup? || s.tasks[k].pc.Done? || Captured(s.tasks[k])
        invariant s.tasks[k].pc == Done ==> !s.stickyMark && !s.deletedMark
        decreases Rank(s.tasks[k])
      {
        StaysOnCourse(s, k, false, live(steps));
        Own(k, false, live(steps));
        steps := steps + 1;
      }
    }
  }
}
