/**
 The worker's jobs seen from the player slots: every grouped, rolled-back and repaired job list is a legal run of the
 database's calls, so what is proved about such runs, the agreement of the slot counters first of all, holds of it.
 */
module AuthWorkerSlots {
  import opened Basics
  import opened AuthWorker
  import Laws = AuthWorkerLaws
  import S = SessionTables

  /** The calls lead from `s` to `s'`. */
  ghost predicate Leads(s: S.Slots, calls: seq<S.Call>, s': S.Slots) {
    S.LegalRun(s, calls) && S.Run(s, calls).0 == s'
  }

  /** Calls of an authorization and of the threads reserving meanwhile: nothing is settled or deleted, and no
      transaction ends. */
  predicate Plain(calls: seq<S.Call>) {
    forall c | c in calls ::
      if c.Rtmp? then c.call.Reserve? else (c.TryAcquire? || c.Update?) && c.between == []
  }

  /** Calls of a job list and of the threads reserving meanwhile; `rollbacks`: whether a group commit may fail. */
  predicate ByWorker(calls: seq<S.Call>, rollbacks: bool) {
    forall c | c in calls :: !c.DeleteRows? && (c.Rtmp? ==> c.call.Reserve?) && (c == S.EndBatch(false) ==> rollbacks)
  }

  lemma {:induction false} LeadsOn(s: S.Slots, a: seq<S.Call>, s1: S.Slots, b: seq<S.Call>, s2: S.Slots)
    requires Leads(s, a, s1) && Leads(s1, b, s2)
    ensures Leads(s, a + b, s2)
    decreases a
  {
    if a == [] {
      assert a + b == b;
    } else {
      assert (a + b)[1..] == a[1..] + b && (a + b)[0] == a[0];
      LeadsOn(S.Step(s, a[0]).0, a[1..], s1, b, s2);
    }
  }

  lemma LeadsOne(s: S.Slots, c: S.Call)
    requires S.Legal(s, c)
    ensures Leads(s, [c], S.Step(s, c).0)
  {
    var s' := S.Step(s, c).0;
    assert [c][1..] == [] && [c][0] == c;
    assert S.LegalRun(s', []) && S.Run(s', []).0 == s';
  }

  /** Plain calls change only rows and add reservations, and do not look at the saved copy. */
  ghost predicate OnlyRows(s: S.Slots, s': S.Slots) {
    s' == s.(players := s'.players, reserved := s'.reserved) && s.reserved <= s'.reserved
  }

  lemma ReserveIsLegal(s: S.Slots, viewer: string)
    ensures S.Legal(s, S.Rtmp(S.Reserve(viewer)))
  {
    var call := S.Reserve(viewer);
    assert [call][1..] == [] && S.LegalRtmp(S.Reserved(s, viewer).0, []);
  }

  lemma PlainStep(s: S.Slots, c: S.Call, saved: Option<S.PlayerTable>)
    requires Plain([c]) && S.Legal(s, c)
    ensures OnlyRows(s, S.Step(s, c).0)
    ensures S.Legal(s.(saved := saved), c) && S.Step(s.(saved := saved), c).0 == S.Step(s, c).0.(saved := saved)
  {
    assert c in [c];
    var v := if c.Rtmp? then c.call.viewer else c.row.viewerId;
    assert S.Taken(s.(saved := saved), v) == S.Taken(s, v);
    assert S.RtmpRun(S.SlotTaken(s, v), []) == S.SlotTaken(s, v);
    if c.Rtmp? { ReserveIsLegal(s.(saved := saved), v); }
  }

  lemma {:induction false} PlainRun(s: S.Slots, calls: seq<S.Call>, s': S.Slots, saved: Option<S.PlayerTable>)
    requires Plain(calls) && Leads(s, calls, s')
    ensures OnlyRows(s, s') && Leads(s.(saved := saved), calls, s'.(saved := saved))
    decreases calls
  {
    if calls != [] {
      assert Plain([calls[0]]) && Plain(calls[1..]);
      PlainStep(s, calls[0], saved);
      PlainRun(S.Step(s, calls[0]).0, calls[1..], s', saved);
    }
  }

  // ----- One job

  lemma {:induction false} ReservingLeads(s: S.Slots, viewers: seq<string>) returns (calls: seq<S.Call>)
    ensures Plain(calls) && Leads(s, calls, ReservedFor(s, viewers))
    decreases viewers
  {
    calls := [];
    if viewers != [] {
      var c := S.Rtmp(S.Reserve(viewers[0]));
      var s1 := S.Reserved(s, viewers[0]).0;
      ReserveIsLegal(s, viewers[0]);
      LeadsOne(s, c);
      var more := ReservingLeads(s1, viewers[1..]);
      LeadsOn(s, [c], s1, more, ReservedFor(s, viewers));
      calls := [c] + more;
    }
  }

  /** A call, behind the reservations made before it. */
  lemma CallLeads(env: Env, w: World, c: S.Call) returns (reserving: seq<S.Call>)
    requires S.Legal(Meanwhile(env, w), c)
    ensures Plain(reserving) && Leads(w.slots, reserving + [c], S.Step(Meanwhile(env, w), c).0)
  {
    reserving := ReservingLeads(w.slots, env.reserves(w.tick));
    LeadsOne(Meanwhile(env, w), c);
    LeadsOn(w.slots, reserving, Meanwhile(env, w), [c], S.Step(Meanwhile(env, w), c).0);
  }

  lemma UpdateLeads(env: Env, w: World, p: S.Player) returns (calls: seq<S.Call>)
    ensures Plain(calls) && Leads(w.slots, calls, PlayerUpdate(env, w, p).0.slots)
  {
    var c := S.Update(p.id, p, env.io(w.tick), []);
    var reserving := CallLeads(env, w, c);
    calls := reserving + [c];
  }

  lemma AcquireLeads(env: Env, w: World, p: S.Player) returns (calls: seq<S.Call>)
    ensures Plain(calls) && Leads(w.slots, calls, PlayerTryAcquire(env, w, p).0.slots)
  {
    var c := S.TryAcquire(p, env.io(w.tick), []);
    var reserving := CallLeads(env, w, c);
    calls := reserving + [c];
  }

  lemma RestoreLeads(env: Env, w: World, prior: Option<S.Player>) returns (calls: seq<S.Call>)
    ensures Plain(calls) && Leads(w.slots, calls, RestorePlayer(env, w, prior).slots)
  {
    calls := [];
    if prior.Some? {
      var row := prior.value.(active := true);
      var (w1, ok) := PlayerUpdate(env, w, row);
      calls := UpdateLeads(env, w, row);
      if !ok {
        var more := AcquireLeads(env, w1, row);
        LeadsOn(w.slots, calls, w1.slots, more, PlayerTryAcquire(env, w1, row).0.slots);
        calls := calls + more;
      }
    }
  }

  lemma TryPlayLeads(env: Env, w: World, req: Request, g: Grant) returns (calls: seq<S.Call>)
    ensures Plain(calls) && Leads(w.slots, calls, TryPlay(env, w, req, g).0.slots)
  {
    var row := S.Player(req.sessionId, g.streamId, g.viewerId, req.app, g.streamName, 0, 0.0, 0.0, g.at, true);
    var prior := Rows(w, req.conn).player;
    var (w1, released) := if prior.None? then (w, true) else PlayerUpdate(env, w, prior.value.(active := false));
    calls := [];
    if prior.Some? { calls := UpdateLeads(env, w, prior.value.(active := false)); }
    if released {
      var (w2, ok) := PlayerTryAcquire(env, w1, row);
      var more := AcquireLeads(env, w1, row);
      LeadsOn(w.slots, calls, w1.slots, more, w2.slots);
      calls := calls + more;
      if !ok {
        var back := RestoreLeads(env, w2, prior);
        LeadsOn(w.slots, calls, w2.slots, back, RestorePlayer(env, w2, prior).slots);
        calls := calls + back;
      }
    }
  }

  lemma PublishKeepsSlots(env: Env, w: World, req: Request, g: Grant)
    ensures TryPublish(env, w, req, g).0.slots == w.slots
  {
  }

  lemma AuthorizeLeads(env: Env, w: World, req: Request) returns (calls: seq<S.Call>)
    ensures Plain(calls) && Leads(w.slots, calls, RunAuthorize(env, w, req).0.slots)
  {
    calls := [];
    var grant := env.decide(w.outcomes, req);
    if grant.Some? {
      if req.kind.Publish? {
        PublishKeepsSlots(env, w, req, grant.value);
      } else {
        calls := TryPlayLeads(env, w, req, grant.value);
      }
    }
  }

  lemma {:induction false} GroupJobsLead(env: Env, w: World, group: seq<Job>) returns (calls: seq<S.Call>)
    requires forall j | j in group :: j.Authorize?
    ensures Plain(calls) && Leads(w.slots, calls, RunJobs(env, w, group).0.slots)
    decreases group
  {
    calls := [];
    if group != [] {
      assert group[0] in group;
      var w1 := RunJob(env, w, group[0]).0;
      calls := AuthorizeLeads(env, w, group[0].request);
      var more := GroupJobsLead(env, w1, group[1..]);
      LeadsOn(w.slots, calls, w1.slots, more, RunJobs(env, w, group).0.slots);
      calls := calls + more;
    }
  }

  // ----- One group

  lemma {:induction false} RepairLeads(env: Env, w: World, before: seq<Held>) returns (calls: seq<S.Call>)
    ensures Plain(calls) && Leads(w.slots, calls, Repair(env, w, before).slots)
    decreases before
  {
    calls := [];
    if before != [] {
      var h := before[0];
      var w1 := if LostPublisher(w, h)
                then PublisherUpdate(env, w, h.session.publisher.value.(active := false)).0 else w;
      if LostPlayer(w1, h) { calls := UpdateLeads(env, w1, h.session.player.value.(active := false)); }
      var w2 := RepairOne(env, w, h);
      var more := RepairLeads(env, w2, before[1..]);
      LeadsOn(w.slots, calls, w2.slots, more, Repair(env, w, before).slots);
      calls := calls + more;
    }
  }

  /** Plain calls inside a transaction that commits or rolls back. */
  lemma BatchLeads(s: S.Slots, calls: seq<S.Call>, s': S.Slots, commit: bool)
    requires s.saved.None? && Plain(calls) && Leads(s, calls, s')
    ensures Leads(s, [S.BeginBatch] + calls + [S.EndBatch(commit)], S.BatchEnded(s'.(saved := Some(s.players)), commit))
  {
    var saved := Some(s.players);
    LeadsOne(s, S.BeginBatch);
    PlainRun(s, calls, s', saved);
    LeadsOn(s, [S.BeginBatch], s.(saved := saved), calls, s'.(saved := saved));
    LeadsOne(s'.(saved := saved), S.EndBatch(commit));
    LeadsOn(s, [S.BeginBatch] + calls, s'.(saved := saved), [S.EndBatch(commit)],
            S.BatchEnded(s'.(saved := saved), commit));
  }

  predicate Settled(s: S.Slots, s': S.Slots) {
    s'.saved.None? && s.reserved <= s'.reserved
  }

  lemma GroupLeads(env: Env, w: World, group: seq<Job>) returns (calls: seq<S.Call>)
    requires w.slots.saved.None? && forall j | j in group :: j.Authorize?
    ensures Leads(w.slots, calls, RunGroup(env, w, group).0.slots) && Settled(w.slots, RunGroup(env, w, group).0.slots)
    ensures ByWorker(calls, |group| > 1 && env.fate(w, group).RolledBack?)
  {
    var (w1, cs) := RunJobs(env, w, group);
    calls := GroupJobsLead(env, w, group);
    PlainRun(w.slots, calls, w1.slots, None);
    if |group| <= 1 || env.fate(w, group).Unbatched? { return; }
    BatchLeads(w.slots, calls, w1.slots, env.fate(w, group).Committed?);
    calls := [S.BeginBatch] + calls + [S.EndBatch(env.fate(w, group).Committed?)];
    if env.fate(w, group).RolledBack? {
      var w2 := RolledBackTo(w, w1);
      var w3 := w2.(forceClose := w2.forceClose + AllowedConns(cs));
      var repairs := RepairLeads(env, w3, HeldBefore(w, group));
      var end := RunGroup(env, w, group).0.slots;
      PlainRun(w2.slots, repairs, end, None);
      LeadsOn(w.slots, calls, w2.slots, repairs, end);
      calls := calls + repairs;
    }
  }

  // ----- A job list

  /** The reservations the list's fast-path plays are to settle. */
  function Reservations(jobs: seq<Job>): multiset<string>
    decreases jobs
  {
    if jobs == [] then multiset{}
    else (if jobs[0].PersistPlay? then multiset{jobs[0].player.viewerId} else multiset{}) + Reservations(jobs[1..])
  }

  lemma InsertLeads(env: Env, w: World, row: S.Player) returns (calls: seq<S.Call>)
    requires row.viewerId in w.slots.reserved
    ensures var s := PlayerInsertReserved(env, w, row).0.slots;
            && Leads(w.slots, calls, s) && ByWorker(calls, false)
            && s.saved == w.slots.saved && w.slots.reserved - multiset{row.viewerId} <= s.reserved
  {
    InsertSettles(env, w, row);
    var c := S.InsertReserved(row, env.io(w.tick));
    var reserving := CallLeads(env, w, c);
    calls := reserving + [c];
  }

  lemma InsertSettles(env: Env, w: World, row: S.Player)
    requires row.viewerId in w.slots.reserved
    ensures var s := PlayerInsertReserved(env, w, row).0.slots;
            && row.viewerId in Meanwhile(env, w).reserved
            && s.saved == w.slots.saved && w.slots.reserved - multiset{row.viewerId} <= s.reserved
  {
    Laws.ReservingKeepsRows(w.slots, env.reserves(w.tick));
  }

  lemma PersistLeads(env: Env, w: World, conn: nat, row: S.Player) returns (calls: seq<S.Call>)
    requires row.viewerId in w.slots.reserved
    ensures var s := PersistFastPlay(env, w, conn, row).slots;
            && Leads(w.slots, calls, s) && ByWorker(calls, false)
            && s.saved == w.slots.saved && w.slots.reserved - multiset{row.viewerId} <= s.reserved
  {
    calls := InsertLeads(env, w, row);
    var (w1, ok) := PlayerInsertReserved(env, w, row);
    if ok && !(Rows(w1, conn).player.Some? && Rows(w1, conn).player.value.id == row.id) {
      var off := row.(active := false);
      var end := PlayerUpdate(env, w1, off).0.slots;
      var more := UpdateLeads(env, w1, off);
      PlainRun(w1.slots, more, end, None);
      LeadsOn(w.slots, calls, w1.slots, more, end);
      calls := calls + more;
    }
  }

  lemma CloseLeads(env: Env, w: World, conn: nat) returns (calls: seq<S.Call>)
    ensures Plain(calls) && Leads(w.slots, calls, OnClose(env, w, conn).slots)
  {
    var rows := Rows(w, conn);
    var w0 := w.(conns := w.conns - {conn}, forceClose := w.forceClose - {conn});
    var (w1, ok1) := if rows.publisher.None? then (w0, true)
                     else PublisherUpdate(env, w0, rows.publisher.value.(active := false));
    var w2 := if ok1 then w1 else w1.(undeactivated := w1.undeactivated + [rows.publisher.value.id]);
    calls := [];
    if rows.player.Some? { calls := UpdateLeads(env, w2, rows.player.value.(active := false)); }
  }

  lemma JobLeads(env: Env, w: World, job: Job) returns (calls: seq<S.Call>)
    requires !job.Authorize? && w.slots.saved.None? && Reservations([job]) <= w.slots.reserved
    ensures var s := RunJob(env, w, job).0.slots;
            && Leads(w.slots, calls, s) && ByWorker(calls, false)
            && s.saved.None? && w.slots.reserved - Reservations([job]) <= s.reserved
  {
    assert [job][1..] == [];
    calls := [];
    match job
    case Close(conn) =>
      calls := CloseLeads(env, w, conn);
      PlainRun(w.slots, calls, OnClose(env, w, conn).slots, None);
    case PersistPlay(conn, row) =>
      assert row.viewerId in Reservations([job]);
      calls := PersistLeads(env, w, conn, row);
    case PersistPublish(conn, row) =>
  }

  /** The group's transaction is not rolled back, or it has none. */
  predicate Kept(env: Env, w: World, group: seq<Job>) {
    |group| <= 1 || !env.fate(w, group).RolledBack?
  }

  predicate NeverRolledBack(env: Env, w: World, group: seq<Job>, jobs: seq<Job>)
    decreases jobs
  {
    if jobs == [] then Kept(env, w, group)
    else if jobs[0].Authorize? then NeverRolledBack(env, w, group + [jobs[0]], jobs[1..])
    else
      && Kept(env, w, group)
      && NeverRolledBack(env, RunJob(env, RunGroup(env, w, group).0, jobs[0]).0, [], jobs[1..])
  }

  lemma {:induction false} GroupedLeads(env: Env, w: World, group: seq<Job>, jobs: seq<Job>)
    returns (calls: seq<S.Call>)
    requires w.slots.saved.None? && Reservations(jobs) <= w.slots.reserved && forall j | j in group :: j.Authorize?
    ensures Leads(w.slots, calls, RunGroupedFrom(env, w, group, jobs).0.slots)
    ensures ByWorker(calls, !NeverRolledBack(env, w, group, jobs))
    decreases jobs
  {
    if jobs == [] {
      calls := GroupLeads(env, w, group);
    } else if jobs[0].Authorize? {
      calls := GroupedLeads(env, w, group + [jobs[0]], jobs[1..]);
    } else {
      calls := SplitLeads(env, w, group, jobs);
    }
  }

  lemma {:induction false} SplitLeads(env: Env, w: World, group: seq<Job>, jobs: seq<Job>)
    returns (calls: seq<S.Call>)
    requires w.slots.saved.None? && Reservations(jobs) <= w.slots.reserved && forall j | j in group :: j.Authorize?
    requires jobs != [] && !jobs[0].Authorize?
    ensures Leads(w.slots, calls, RunGroupedFrom(env, w, group, jobs).0.slots)
    ensures ByWorker(calls, !NeverRolledBack(env, w, group, jobs))
    decreases jobs, 0
  {
    var w1 := RunGroup(env, w, group).0;
    calls := GroupLeads(env, w, group);
    var w2 := RunJob(env, w1, jobs[0]).0;
    assert [jobs[0]][1..] == [];
    assert Reservations(jobs) == Reservations([jobs[0]]) + Reservations(jobs[1..]);
    var one := JobLeads(env, w1, jobs[0]);
    LeadsOn(w.slots, calls, w1.slots, one, w2.slots);
    var rest := GroupedLeads(env, w2, [], jobs[1..]);
    LeadsOn(w.slots, calls + one, w2.slots, rest, RunGroupedFrom(env, w, group, jobs).0.slots);
    calls := calls + one + rest;
  }

  /** For every job list whose fast-path plays hold open reservations, whatever is granted, refused by storage, reserved
      by other threads meanwhile, rolled back and repaired: the slots end as some legal run of the database's own calls
      leaves them. */
  lemma WorkerIsLegalRun(env: Env, w: World, jobs: seq<Job>) returns (calls: seq<S.Call>)
    requires w.slots.saved.None? && Reservations(jobs) <= w.slots.reserved
    ensures S.LegalRun(w.slots, calls) && S.Run(w.slots, calls).0 == RunGrouped(env, w, jobs).0.slots
    ensures ByWorker(calls, !NeverRolledBack(env, w, [], jobs))
  {
    calls := GroupedLeads(env, w, [], jobs);
  }

  /** So after it a viewer's slots are its active rows and open reservations, and they stay within the cap unless a
      group was rolled back. */
  lemma WorkerCountsExactly(env: Env, w: World, jobs: seq<Job>, viewer: string)
    requires w.slots.saved.None? && w.slots.leaked == map[] && w.slots.inflight == multiset{}
    requires Reservations(jobs) <= w.slots.reserved
    ensures var s := RunGrouped(env, w, jobs).0.slots;
            && S.Taken(s, viewer) == |S.ActivePlayers(s.players, viewer)| + s.reserved[viewer]
            && (S.Capped(w.slots) && NeverRolledBack(env, w, [], jobs) ==>
                  S.Taken(s, viewer) <= S.MAX_CONNECTIONS_PER_PLAY_KEY)
  {
    var calls := WorkerIsLegalRun(env, w, jobs);
    S.UndeletedRunsCountExactly(w.slots, calls, viewer);
    if S.Capped(w.slots) && NeverRolledBack(env, w, [], jobs) { S.CommittedRunsKeepCap(w.slots, calls); }
  }

  // ----- A rolled-back group can exceed the cap

  /** The connection tracks an active row of a viewer that stands at the cap. */
  ghost predicate AtCap(w: World, conn: nat) {
    Rows(w, conn).player.Some? &&
    var p, s := Rows(w, conn).player.value, w.slots;
    && S.Admissible(p) && p.id in s.players && s.players[p.id].active && s.players[p.id].viewerId == p.viewerId
    && s.saved.None? && s.leaked == map[] && s.inflight == multiset{}
    && S.Taken(s, p.viewerId) == S.MAX_CONNECTIONS_PER_PLAY_KEY
  }

  /** The first slot that comes free goes to another thread's reservation; no group commits. */
  function Contested(w: World, req: Request, viewer: string): Env {
    Env(_ => true, (_, r) => if r == req then Some(Grant("", "", viewer, 0)) else None, (_, _) => RolledBack,
        n => if n == w.tick + 1 then [viewer] else [])
  }

  /** The connection's own play is denied, and its old row stays inactive: the slot it released is gone before the new
      row asks for it. */
  lemma ContestedPlay(w: World, req: Request)
    requires AtCap(w, req.conn)
    ensures var v := Rows(w, req.conn).player.value.viewerId;
            var (w', ok) := TryPlay(Contested(w, req, v), w, req, Grant("", "", v, 0));
            && !ok && w'.conns == w.conns && w'.slots.inflight == multiset{} && w'.slots.saved.None?
            && w'.slots.reserved == w.slots.reserved + multiset{v}
            && !Laws.ActivePlayer(w', Rows(w, req.conn).player.value.id)
  {
    var p, v := Rows(w, req.conn).player.value, Rows(w, req.conn).player.value.viewerId;
    var env := Contested(w, req, v);
    var off := p.(active := false);
    var w1 := PlayerUpdate(env, w, off).0;
    assert Meanwhile(env, w) == w.slots;
    S.RowSet(w.slots.players, p.id, S.Rewritten(w.slots.players, p.id, off)[p.id], v);
    assert S.Taken(w1.slots, v) == S.MAX_CONNECTIONS_PER_PLAY_KEY - 1;
    assert env.reserves(w1.tick) == [v] && [v][1..] == [];
    assert Meanwhile(env, w1) == ReservedFor(S.Reserved(w1.slots, v).0, []) == S.Reserved(w1.slots, v).0;
    var row := S.Player(req.sessionId, "", v, req.app, "", 0, 0.0, 0.0, 0, true);
    var w2 := PlayerTryAcquire(env, w1, row).0;
    assert w2.slots == S.Reserved(w1.slots, v).0;
    var w3 := PlayerUpdate(env, w2, p.(active := true)).0;
    assert Meanwhile(env, w2) == w2.slots && w3.slots == w2.slots;
    assert Meanwhile(env, w3) == w3.slots;
  }

  lemma TwoGrouped(env: Env, w: World, a: Job, b: Job)
    requires a.Authorize? && b.Authorize?
    ensures RunGrouped(env, w, [a, b]) == RunGroup(env, w, [a, b])
    ensures RunJobs(env, w, [a, b]).0 == RunJob(env, RunJob(env, w, a).0, b).0
  {
    assert [a, b][1..] == [b] && [b][1..] == [] && [] + [a] == [a] && [a] + [b] == [a, b];
    assert RunGroupedFrom(env, w, [a], [b]) == RunGroupedFrom(env, w, [a, b], []);
    Laws.RunJobsOne(env, RunJob(env, w, a).0, b);
  }

  lemma {:induction false} RepairsNothing(env: Env, w: World, before: seq<Held>)
    requires forall h | h in before :: h.session == Rows(w, h.conn)
    ensures Repair(env, w, before) == w
    decreases before
  {
    if before != [] {
      assert before[0] in before;
      RepairsNothing(env, w, before[1..]);
    }
  }

  /** So the condition on rollbacks is needed: from every such state, two authorizations whose group is rolled back
      leave the viewer one above the cap. */
  lemma RolledBackGroupExceedsCap(w: World, req: Request, other: Request)
    requires req.kind.Play? && AtCap(w, req.conn) && other != req
    ensures var v := Rows(w, req.conn).player.value.viewerId;
            var s := RunGrouped(Contested(w, req, v), w, [Authorize(req), Authorize(other)]).0.slots;
            S.Taken(s, v) == S.MAX_CONNECTIONS_PER_PLAY_KEY + 1
  {
    var v := Rows(w, req.conn).player.value.viewerId;
    var env, a, b := Contested(w, req, v), Authorize(req), Authorize(other);
    ContestedPlay(w, req);
    TwoGrouped(env, w, a, b);
    var w1 := RunJob(env, w, a).0;
    var w2 := RunJob(env, w1, b).0;
    assert w2.slots == w1.slots && w2.conns == w.conns;
    var cs := RunJobs(env, w, [a, b]).1;
    var w3 := RolledBackTo(w, w2).(forceClose := w2.forceClose + AllowedConns(cs));
    forall h | h in HeldBefore(w, [a, b]) ensures h.session == Rows(w3, h.conn) { Laws.HeldBeforeIs(w, [a, b], h); }
    RepairsNothing(env, w3, HeldBefore(w, [a, b]));
  }
}
