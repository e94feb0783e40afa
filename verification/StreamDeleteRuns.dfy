/** Runs of `StreamDelete` from the empty state, built action by action, that show what can go wrong. */
module StreamDeleteRuns {
  import opened Basics
  import opened StreamDelete

  // ----- A run in which an older delete removes a replacement

  lemma {:induction false} Extend(s: State, actions: seq<Action>, a: Action)
    requires RunFrom(s, actions) && Enabled(End(s, actions), a)
    ensures RunFrom(s, actions + [a]) && End(s, actions + [a]) == Next(End(s, actions), a)
    decreases actions
  {
    if actions == [] {
      assert [a][1..] == [];
    } else {
      assert (actions + [a])[1..] == actions[1..] + [a];
      Extend(Next(s, actions[0]), actions[1..], a);
    }
  }

  lemma Do(actions: seq<Action>, a: Action) returns (actions': seq<Action>)
    requires RunFrom(INIT, actions) && Enabled(End(INIT, actions), a)
    ensures RunFrom(INIT, actions') && End(INIT, actions') == Next(End(INIT, actions), a)
  {
    Extend(INIT, actions, a);
    actions' := actions + [a];
  }

  /** Three actions of task `k` lead from `s` to `s'`. */
  ghost predicate ThreeActs(s: State, k: nat, faults: (bool, bool, bool), s': State) {
    var a1, a2, a3 := Act(k, faults.0, false), Act(k, faults.1, false), Act(k, faults.2, false);
    Enabled(s, a1) &&
    var s1 := Next(s, a1);
    Enabled(s1, a2) &&
    var s2 := Next(s1, a2);
    Enabled(s2, a3) && Next(s2, a3) == s'
  }

  lemma DoThree(actions: seq<Action>, s: State, k: nat, faults: (bool, bool, bool), s': State)
    returns (actions': seq<Action>)
    requires RunFrom(INIT, actions) && End(INIT, actions) == s && ThreeActs(s, k, faults, s')
    ensures RunFrom(INIT, actions') && End(INIT, actions') == s'
  {
    actions' := Do(actions, Act(k, faults.0, false));
    actions' := Do(actions', Act(k, faults.1, false));
    actions' := Do(actions', Act(k, faults.2, false));
  }

  lemma Arrives(actions: seq<Action>, k: nat) returns (actions': seq<Action>)
    requires RunFrom(INIT, actions) && k !in End(INIT, actions).tasks && !End(INIT, actions).stickyMark
    ensures RunFrom(INIT, actions')
    ensures var s := End(INIT, actions);
            End(INIT, actions') == s.(tasks := s.tasks[k := Task(Lookup, Identity(0, 0), 0, 0)])
  {
    actions' := Do(actions, Request(k));
    actions' := Do(actions', Act(k, false, false));
  }

  /** Task `k`, at its lookup, captures the row and begins on it. */
  lemma Captures(actions: seq<Action>, k: nat) returns (actions': seq<Action>)
    requires RunFrom(INIT, actions)
    requires var s := End(INIT, actions);
             k in s.tasks && s.tasks[k] == Task(Lookup, Identity(0, 0), 0, 0) && s.row.Some?
    ensures RunFrom(INIT, actions')
    ensures var s := End(INIT, actions);
            var r := s.row.value;
            End(INIT, actions') == s.(row := Some(r.(enabled := false, pending := true)),
              deletedMark := true, stickyMark := true, accepted := s.accepted + {r.token},
              tasks := s.tasks[k := Task(Drain, Identity(r.token, r.createdAt), 0, 0)])
  {
    actions' := Do(actions, Act(k, false, false));
    actions' := Do(actions', Act(k, false, false));
    actions' := Do(actions', Act(k, false, false));
  }

  /** And finds no session attached. */
  lemma Begins(actions: seq<Action>, k: nat) returns (actions': seq<Action>)
    requires RunFrom(INIT, actions)
    requires var s := End(INIT, actions);
             k in s.tasks && s.tasks[k] == Task(Lookup, Identity(0, 0), 0, 0) && s.row.Some?
    ensures RunFrom(INIT, actions')
    ensures var s := End(INIT, actions);
            var r := s.row.value;
            End(INIT, actions') == s.(row := Some(r.(enabled := false, pending := true)),
              deletedMark := true, stickyMark := true, accepted := s.accepted + {r.token},
              tasks := s.tasks[k := Task(Finalize(false), Identity(r.token, r.createdAt), 1, 0)])
  {
    actions' := Captures(actions, k);
    actions' := Do(actions', Act(k, false, false));
  }

  lemma Finishes(actions: seq<Action>, k: nat) returns (actions': seq<Action>)
    requires RunFrom(INIT, actions)
    requires var s := End(INIT, actions);
             k in s.tasks && s.tasks[k].pc == Finalize(false) && s.row.Some? && s.row.value.pending
    ensures RunFrom(INIT, actions')
    ensures var s := End(INIT, actions);
            End(INIT, actions') == s.(row := None, deletedMark := false, stickyMark := false,
              tasks := s.tasks[k := s.tasks[k].(pc := Done, finalizes := s.tasks[k].finalizes + 1)])
  {
    actions' := Do(actions, Act(k, false, false));
    actions' := Do(actions', Act(k, false, false));
  }

  ghost predicate RemovesReplacement(actions: seq<Action>) {
    && RunFrom(INIT, actions)
    && var s := End(INIT, actions);
    && 1 in s.tasks && s.tasks[1].pc == Finalize(false) && s.tasks[1].id.token == 1
    && s.row.Some? && s.row.value.token == 2
    && Next(s, Act(1, false, false)).row.None?
  }

  /** Two deletes of row 1 arrive. */
  lemma BothArrive() returns (acts: seq<Action>)
    ensures RunFrom(INIT, acts)
    ensures var s := Next(INIT, Create(1, 0, true));
            var asked := Task(Lookup, Identity(0, 0), 0, 0);
            End(INIT, acts) == s.(tasks := s.tasks[1 := asked][2 := asked])
  {
    acts := Do([], Create(1, 0, true));
    acts := Arrives(acts, 1);
    acts := Arrives(acts, 2);
  }

  /** Two deletes of row 1 race; the second removes it while the first is about to finalize. */
  lemma RaceOnRowOne() returns (acts: seq<Action>)
    ensures RunFrom(INIT, acts)
    ensures End(INIT, acts) == State(None, false, false,
              map[1 := Task(Finalize(false), Identity(1, 0), 1, 0), 2 := Task(Done, Identity(1, 0), 1, 1)], {1}, {1})
  {
    acts := BothArrive();
    acts := Begins(acts, 1);
    acts := Begins(acts, 2);
    acts := Finishes(acts, 2);
  }

  /** Row 2 takes the id, a third delete marks it, and the first delete's finalize then removes row 2. */
  lemma OlderDeleteCanRemoveReplacement()
    ensures exists actions :: RemovesReplacement(actions)
  {
    var acts := RaceOnRowOne();
    acts := Do(acts, Create(2, 0, true));
    acts := Arrives(acts, 3);
    acts := Begins(acts, 3);
    assert RemovesReplacement(acts);
  }

  // ----- A run in which a give-up clears another delete's pending mark

  /** Task `k` begins on the row and finds sessions attached. */
  lemma DrainsLive(actions: seq<Action>, k: nat) returns (actions': seq<Action>)
    requires RunFrom(INIT, actions)
    requires var s := End(INIT, actions);
             k in s.tasks && s.tasks[k] == Task(Lookup, Identity(0, 0), 0, 0) && s.row.Some?
    ensures RunFrom(INIT, actions')
    ensures var s := End(INIT, actions);
            var r := s.row.value;
            End(INIT, actions') == s.(row := Some(r.(enabled := false, pending := true)),
              deletedMark := true, stickyMark := true, accepted := s.accepted + {r.token},
              tasks := s.tasks[k := Task(Recheck, Identity(r.token, r.createdAt), 1, 0)])
  {
    actions' := Captures(actions, k);
    actions' := Do(actions', Act(k, false, true));
  }

  /** The three actions of an attempt on a row already pending, when the finalize fails. */
  lemma AttemptFails(s: State, k: nat)
    requires k in s.tasks && s.tasks[k].pc == Recheck && Matches(s.row, s.tasks[k].id)
    requires s.row.value.pending && !s.row.value.enabled
    ensures var t := s.tasks[k].(pc := Retrying, finalizes := s.tasks[k].finalizes + 1);
            ThreeActs(s, k, (false, false, true), s.(tasks := s.tasks[k := t]))
  {
    var t, a := s.tasks[k], Act(k, false, false);
    var t1, t2 := t.(pc := Rebegin), t.(pc := Finalize(true));
    var s1 := Next(s, a);
    assert s1 == s.(tasks := s.tasks[k := t1]);
    var s2 := Next(s1, a);
    Overwritten(s.tasks, k, t1, t2);
    assert s2 == s.(tasks := s.tasks[k := t2]);
    Overwritten(s.tasks, k, t2, t.(pc := Retrying, finalizes := t.finalizes + 1));
  }

  /** Task `k` on its first attempt at the row it has begun on, both markers set. */
  predicate Attempting(s: State, k: nat) {
    && k in s.tasks && s.tasks[k] == Task(Recheck, s.tasks[k].id, 1, 0) && Matches(s.row, s.tasks[k].id)
    && s.row.value.pending && !s.row.value.enabled && s.deletedMark && s.stickyMark
  }

  function Failed(s: State, k: nat, n: nat): State
    requires k in s.tasks
  {
    s.(tasks := s.tasks[k := Task(Retrying, s.tasks[k].id, n, n)])
  }

  /** The first `n` finalizes of task `k` fail. */
  lemma {:induction false} FinalizesFail(actions: seq<Action>, s: State, k: nat, n: nat) returns (actions': seq<Action>)
    requires RunFrom(INIT, actions) && End(INIT, actions) == s && Attempting(s, k) && 0 < n <= FINALIZE_ATTEMPTS
    ensures RunFrom(INIT, actions') && End(INIT, actions') == Failed(s, k, n)
    decreases n
  {
    if n == 1 {
      AttemptFails(s, k);
      actions' := DoThree(actions, s, k, (false, false, true), Failed(s, k, 1));
    } else {
      actions' := FinalizesFail(actions, s, k, n - 1);
      actions' := NextAttemptFails(actions', s, k, n - 1);
    }
  }

  lemma NextAttemptFails(actions: seq<Action>, s: State, k: nat, n: nat) returns (actions': seq<Action>)
    requires Attempting(s, k) && n < FINALIZE_ATTEMPTS
    requires RunFrom(INIT, actions) && End(INIT, actions) == Failed(s, k, n)
    ensures RunFrom(INIT, actions') && End(INIT, actions') == Failed(s, k, n + 1)
  {
    var t := Task(Recheck, s.tasks[k].id, n + 1, n);
    var s1 := s.(tasks := s.tasks[k := t]);
    Overwritten(s.tasks, k, Task(Retrying, t.id, n, n), t);
    Overwritten(s.tasks, k, t, Task(Retrying, t.id, n + 1, n + 1));
    actions' := Do(actions, Act(k, false, false));
    assert End(INIT, actions') == s1;
    AttemptFails(s1, k);
    actions' := DoThree(actions', s1, k, (false, false, true), Failed(s, k, n + 1));
  }

  /** Task `k` finds its begin failing, its row still there, and is about to look whether it is enabled. */
  lemma StartsGivingUp(s: State, k: nat)
    requires k in s.tasks && s.tasks[k].pc == Retrying && s.tasks[k].attempt == 6 && Matches(s.row, s.tasks[k].id)
    ensures ThreeActs(s, k, (false, true, false), s.(tasks := s.tasks[k := s.tasks[k].(pc := GiveUpEnabled)]))
  {
    var t := s.tasks[k];
    var t1, t2, t3 := t.(pc := GiveUpBegin), t.(pc := GiveUpIdentity), t.(pc := GiveUpEnabled);
    assert Next(s, Act(k, false, false)) == s.(tasks := s.tasks[k := t1]);
    Overwritten(s.tasks, k, t1, t2);
    assert Next(s.(tasks := s.tasks[k := t1]), Act(k, true, false)) == s.(tasks := s.tasks[k := t2]);
    Overwritten(s.tasks, k, t2, t3);
  }

  /** The synchronous finalize of task `k` fails and it re-enables the row. */
  lemma RollsBack(s: State, k: nat)
    requires k in s.tasks && s.tasks[k].pc == Finalize(false) && s.row.Some?
    ensures var t := s.tasks[k].(pc := Clearing(false), finalizes := s.tasks[k].finalizes + 1);
            ThreeActs(s, k, (true, false, false),
                      s.(row := Some(s.row.value.(enabled := true, pending := false)), tasks := s.tasks[k := t]))
  {
    var t := s.tasks[k].(finalizes := s.tasks[k].finalizes + 1);
    var t1, t2, t3 := t.(pc := RollbackRead), t.(pc := RollbackEnable), t.(pc := Clearing(false));
    assert Next(s, Act(k, true, false)) == s.(tasks := s.tasks[k := t1]);
    Overwritten(s.tasks, k, t1, t2);
    assert Next(s.(tasks := s.tasks[k := t1]), Act(k, false, false)) == s.(tasks := s.tasks[k := t2]);
    Overwritten(s.tasks, k, t2, t3);
  }

  /** The row, both markers, and the first two of at most two tasks. */
  ghost predicate Stands(s: State, row: Row, marked: bool, t1: Task, t2: Task) {
    && s.row == Some(row) && s.deletedMark == s.stickyMark == marked
    && 1 in s.tasks && s.tasks[1] == t1 && 2 in s.tasks && s.tasks[2] == t2 && 3 !in s.tasks
  }

  /** Task 1 has begun with sessions attached and failed all its finalizes; task 2 waits at its lookup. */
  lemma OneFails() returns (acts: seq<Action>)
    ensures RunFrom(INIT, acts)
    ensures Stands(End(INIT, acts), Row(1, 0, false, true), true, Task(Retrying, Identity(1, 0), 6, 6),
                   Task(Lookup, Identity(0, 0), 0, 0))
  {
    acts := BothArrive();
    acts := DrainsLive(acts, 1);
    acts := FinalizesFail(acts, End(INIT, acts), 1, 6);
  }

  /** Task 1 is giving up. */
  lemma OneGivesUp() returns (acts: seq<Action>)
    ensures RunFrom(INIT, acts)
    ensures Stands(End(INIT, acts), Row(1, 0, false, true), true, Task(GiveUpEnabled, Identity(1, 0), 6, 6),
                   Task(Lookup, Identity(0, 0), 0, 0))
  {
    acts := OneFails();
    var s := End(INIT, acts);
    StartsGivingUp(s, 1);
    acts := DoThree(acts, s, 1, (false, true, false), s.(tasks := s.tasks[1 := s.tasks[1].(pc := GiveUpEnabled)]));
  }

  /** Task 2 begins, fails to finalize, and re-enables the row behind task 1's back. */
  lemma TwoRollsBack() returns (acts: seq<Action>)
    ensures RunFrom(INIT, acts)
    ensures Stands(End(INIT, acts), Row(1, 0, true, false), true, Task(GiveUpEnabled, Identity(1, 0), 6, 6),
                   Task(Clearing(false), Identity(1, 0), 1, 1))
  {
    acts := OneGivesUp();
    acts := Begins(acts, 2);
    var s := End(INIT, acts);
    RollsBack(s, 2);
    acts := DoThree(acts, s, 2, (true, false, false),
                    s.(row := Some(Row(1, 0, true, false)),
                       tasks := s.tasks[2 := Task(Clearing(false), Identity(1, 0), 1, 1)]));
  }

  /** Task 1 reads "enabled"; task 2 ends and clears both markers. */
  lemma OneIsCommitted() returns (acts: seq<Action>)
    ensures RunFrom(INIT, acts)
    ensures Stands(End(INIT, acts), Row(1, 0, true, false), false, Task(GiveUpDisable, Identity(1, 0), 6, 6),
                   Task(Done, Identity(1, 0), 1, 1))
  {
    acts := TwoRollsBack();
    acts := Do(acts, Act(1, false, false));
    acts := Do(acts, Act(2, false, false));
  }

  /** From the empty state: a third delete has just begun on the row, and the first is committed to a plain disable that
      takes its pending mark away. */
  lemma GiveUpClearsPending() returns (acts: seq<Action>)
    ensures RunFrom(INIT, acts)
    ensures var s := End(INIT, acts);
            && s.row == Some(Row(1, 0, false, true)) && GivingUp(s) && 3 in s.tasks && s.tasks[3].pc == Finalize(false)
            && Enabled(s, Act(1, false, false)) && Quiet(s, Act(1, false, false))
            && Next(s, Act(1, false, false)).row == Some(Row(1, 0, false, false))
  {
    acts := OneIsCommitted();
    acts := Arrives(acts, 3);
    acts := Begins(acts, 3);
    assert End(INIT, acts).tasks[1].pc == GiveUpDisable;
  }
}
