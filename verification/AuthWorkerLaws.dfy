/** What the worker's grouping keeps, whatever the jobs, the storage faults and the failed commits. */
module AuthWorkerLaws {
  import opened Basics
  import opened AuthWorker
  import P = PublisherTable
  import S = SessionTables

  // ----- Grouping preserves meaning

  lemma {:induction false} RunJobsAppend(env: Env, w: World, a: seq<Job>, b: seq<Job>)
    ensures var (w1, c1) := RunJobs(env, w, a);
            var (w2, c2) := RunJobs(env, w1, b);
            RunJobs(env, w, a + b) == (w2, c1 + c2)
    decreases a
  {
    if a == [] {
      assert a + b == b && [] + RunJobs(env, w, b).1 == RunJobs(env, w, b).1;
    } else {
      assert (a + b)[1..] == a[1..] + b;
      var (w1, c) := RunJob(env, w, a[0]);
      RunJobsAppend(env, w1, a[1..], b);
      var (w2, cs) := RunJobs(env, w1, a[1..]);
      var cb := RunJobs(env, w2, b).1;
      assert c + (cs + cb) == (c + cs) + cb;
    }
  }

  lemma RunJobsOne(env: Env, w: World, job: Job)
    ensures RunJobs(env, w, [job]) == RunJob(env, w, job)
  {
    var (w1, c) := RunJob(env, w, job);
    assert RunJobs(env, w1, [job][1..]) == (w1, []);
    assert c + [] == c;
  }

  lemma RunJobsInThree(env: Env, w: World, a: seq<Job>, b: seq<Job>, c: seq<Job>)
    ensures var (w1, c1) := RunJobs(env, w, a);
            var (w2, c2) := RunJobs(env, w1, b);
            var (w3, c3) := RunJobs(env, w2, c);
            RunJobs(env, w, a + (b + c)) == (w3, c1 + c2 + c3)
  {
    var (w1, c1) := RunJobs(env, w, a);
    var (w2, c2) := RunJobs(env, w1, b);
    var (w3, c3) := RunJobs(env, w2, c);
    RunJobsAppend(env, w, a, b + c);
    RunJobsAppend(env, w1, b, c);
    assert c1 + c2 + c3 == c1 + (c2 + c3);
  }

  lemma RunJobsAround(env: Env, w: World, a: seq<Job>, job: Job, b: seq<Job>)
    ensures var (w1, c1) := RunJobs(env, w, a);
            var (w2, c2) := RunJob(env, w1, job);
            var (w3, c3) := RunJobs(env, w2, b);
            RunJobs(env, w, a + ([job] + b)) == (w3, c1 + c2 + c3)
  {
    RunJobsInThree(env, w, a, [job], b);
    RunJobsOne(env, RunJobs(env, w, a).0, job);
  }

  lemma {:induction false} GroupedFromIsJobs(env: Env, w: World, group: seq<Job>, jobs: seq<Job>)
    requires forall w', g :: !env.fate(w', g).RolledBack?
    ensures RunGroupedFrom(env, w, group, jobs) == RunJobs(env, w, group + jobs)
    decreases jobs
  {
    if jobs == [] {
      assert group + jobs == group;
    } else if jobs[0].Authorize? {
      assert group + jobs == (group + [jobs[0]]) + jobs[1..];
      GroupedFromIsJobs(env, w, group + [jobs[0]], jobs[1..]);
    } else {
      var w1 := RunJobs(env, w, group).0;
      var w2 := RunJob(env, w1, jobs[0]).0;
      RunJobsAround(env, w, group, jobs[0], jobs[1..]);
      HeadTail(jobs);
      GroupedFromIsJobs(env, w2, [], jobs[1..]);
      assert [] + jobs[1..] == jobs[1..];
    }
  }

  /** If every group commits, or runs unbatched, grouping changes nothing: same final state, same completions. */
  lemma GroupingPreservesMeaning(env: Env, w: World, jobs: seq<Job>)
    requires forall w', g :: !env.fate(w', g).RolledBack?
    ensures RunGrouped(env, w, jobs) == RunJobs(env, w, jobs)
  {
    GroupedFromIsJobs(env, w, [], jobs);
    assert [] + jobs == jobs;
  }

  // ----- One completion per authorization, in order

  function Requests(jobs: seq<Job>): seq<Request>
    decreases jobs
  {
    if jobs == [] then []
    else (if jobs[0].Authorize? then [jobs[0].request] else []) + Requests(jobs[1..])
  }

  predicate Answers(c: Completion, r: Request) {
    c.kind == r.kind && c.conn == r.conn && c.requestId == r.requestId
  }

  predicate AnswerAll(cs: seq<Completion>, rs: seq<Request>) {
    |cs| == |rs| && forall i | 0 <= i < |cs| :: Answers(cs[i], rs[i])
  }

  lemma {:induction false} RequestsAppend(a: seq<Job>, b: seq<Job>)
    ensures Requests(a + b) == Requests(a) + Requests(b)
    decreases a
  {
    if a == [] {
      assert a + b == b;
    } else {
      var head := if a[0].Authorize? then [a[0].request] else [];
      assert (a + b)[0] == a[0] && (a + b)[1..] == a[1..] + b;
      RequestsAppend(a[1..], b);
      assert head + (Requests(a[1..]) + Requests(b)) == (head + Requests(a[1..])) + Requests(b);
    }
  }

  /** The completion answers the request, and names the row the connection now holds exactly when it allows. */
  predicate Reports(w: World, c: Completion, req: Request) {
    && c.kind == req.kind && c.conn == req.conn && c.requestId == req.requestId
    && c.publisherId == (if c.allow && req.kind.Publish? then Some(req.sessionId) else None)
    && c.playerId == (if c.allow && req.kind.Play? then Some(req.sessionId) else None)
    && (c.allow && req.kind.Publish? ==>
          Rows(w, req.conn).publisher.Some? && Rows(w, req.conn).publisher.value.id == req.sessionId)
    && (c.allow && req.kind.Play? ==>
          Rows(w, req.conn).player.Some? && Rows(w, req.conn).player.value.id == req.sessionId)
  }

  /** An authorization gives one completion, which reports it; the other jobs give none. */
  lemma JobReports(env: Env, w: World, job: Job)
    ensures var (w', cs) := RunJob(env, w, job);
            if job.Authorize? then |cs| == 1 && Reports(w', cs[0], job.request) else cs == []
  {
  }

  lemma {:induction false} RunJobsAnswers(env: Env, w: World, jobs: seq<Job>)
    ensures AnswerAll(RunJobs(env, w, jobs).1, Requests(jobs))
    decreases jobs
  {
    if jobs != [] {
      JobReports(env, w, jobs[0]);
      RunJobsAnswers(env, RunJob(env, w, jobs[0]).0, jobs[1..]);
    }
  }

  lemma {:induction false} DeniedKeepsAnswers(cs: seq<Completion>)
    ensures |Denied(cs)| == |cs|
    ensures forall i | 0 <= i < |cs| :: Denied(cs)[i] == cs[i].(allow := false)
    decreases cs
  {
    if cs != [] { DeniedKeepsAnswers(cs[1..]); }
  }

  lemma DeniedFrom(cs: seq<Completion>, i: nat)
    requires i < |cs|
    ensures Denied(cs[i..]) == [cs[i].(allow := false)] + Denied(cs[i + 1..])
  {
    assert cs[i..][0] == cs[i] && cs[i..][1..] == cs[i + 1..];
  }

  lemma AllowedTo(cs: seq<Completion>, i: nat)
    requires i < |cs|
    ensures AllowedConns(cs[..i + 1]) == AllowedConns(cs[..i]) + if cs[i].allow then {cs[i].conn} else {}
  {
    assert cs[..i + 1] == cs[..i] + [cs[i]];
  }

  lemma GroupAnswers(env: Env, w: World, group: seq<Job>)
    ensures AnswerAll(RunGroup(env, w, group).1, Requests(group))
  {
    RunJobsAnswers(env, w, group);
    DeniedKeepsAnswers(RunJobs(env, w, group).1);
  }

  lemma AnswersConcat(cs: seq<Completion>, rs: seq<Request>, cs': seq<Completion>, rs': seq<Request>)
    requires AnswerAll(cs, rs) && AnswerAll(cs', rs')
    ensures AnswerAll(cs + [] + cs', rs + rs')
  {
  }

  lemma {:induction false} GroupedFromAnswers(env: Env, w: World, group: seq<Job>, jobs: seq<Job>)
    ensures AnswerAll(RunGroupedFrom(env, w, group, jobs).1, Requests(group + jobs))
    decreases jobs
  {
    if jobs == [] {
      assert group + jobs == group;
      GroupAnswers(env, w, group);
    } else if jobs[0].Authorize? {
      assert group + jobs == (group + [jobs[0]]) + jobs[1..];
      GroupedFromAnswers(env, w, group + [jobs[0]], jobs[1..]);
    } else {
      var (w1, cs1) := RunGroup(env, w, group);
      var (w2, cs2) := RunJob(env, w1, jobs[0]);
      GroupAnswers(env, w, group);
      GroupedFromAnswers(env, w2, [], jobs[1..]);
      assert [] + jobs[1..] == jobs[1..];
      RequestsAppend(group, jobs);
      assert Requests(jobs) == Requests(jobs[1..]) && cs2 == [];
      AnswersConcat(cs1, Requests(group), RunGroupedFrom(env, w2, [], jobs[1..]).1, Requests(jobs[1..]));
    }
  }

  /** Whatever commits fail: one completion per authorization, in submission order, with its own request id. */
  lemma CompletionsAnswerRequests(env: Env, w: World, jobs: seq<Job>)
    ensures AnswerAll(RunGrouped(env, w, jobs).1, Requests(jobs))
  {
    GroupedFromAnswers(env, w, [], jobs);
    assert [] + jobs == jobs;
  }

  // ----- Closes and fast-path writes are never inside a group

  lemma {:induction false} GroupedFromSplits(env: Env, w: World, group: seq<Job>, a: seq<Job>, job: Job, b: seq<Job>)
    requires !job.Authorize?
    ensures var (w1, c1) := RunGroupedFrom(env, w, group, a);
            var (w2, c2) := RunJob(env, w1, job);
            var (w3, c3) := RunGrouped(env, w2, b);
            RunGroupedFrom(env, w, group, a + [job] + b) == (w3, c1 + c2 + c3)
    decreases a
  {
    var all := a + [job] + b;
    if a == [] {
      assert all[0] == job && all[1..] == b;
    } else {
      assert all[0] == a[0] && all[1..] == a[1..] + [job] + b;
      if a[0].Authorize? {
        GroupedFromSplits(env, w, group + [a[0]], a[1..], job, b);
      } else {
        var (u1, d1) := RunGroup(env, w, group);
        var (u2, d2) := RunJob(env, u1, a[0]);
        var (u3, d3) := RunGroupedFrom(env, u2, [], a[1..]);
        GroupedFromSplits(env, u2, [], a[1..], job, b);
        var (w2, c2) := RunJob(env, u3, job);
        var c3 := RunGrouped(env, w2, b).1;
        assert d1 + d2 + (d3 + c2 + c3) == (d1 + d2 + d3) + c2 + c3;
      }
    }
  }

  /** A close or fast-path write runs once, on the state left by everything submitted before it, outside any group:
      no later rollback reaches it. */
  lemma UngroupedJobsSplitTheRun(env: Env, w: World, a: seq<Job>, job: Job, b: seq<Job>)
    requires !job.Authorize?
    ensures var (w1, c1) := RunGrouped(env, w, a);
            var (w2, c2) := RunJob(env, w1, job);
            var (w3, c3) := RunGrouped(env, w2, b);
            RunGrouped(env, w, a + [job] + b) == (w3, c1 + c2 + c3)
  {
    GroupedFromSplits(env, w, [], a, job, b);
  }

  // ----- Allow only after a commit

  /** The groups of a run in order, each with the state its transaction started from. */
  function Transactions(env: Env, w: World, group: seq<Job>, jobs: seq<Job>): seq<(World, seq<Job>)>
    decreases jobs
  {
    if jobs == [] then [(w, group)]
    else if jobs[0].Authorize? then Transactions(env, w, group + [jobs[0]], jobs[1..])
    else
      var w1 := RunGroup(env, w, group).0;
      [(w, group)] + Transactions(env, RunJob(env, w1, jobs[0]).0, [], jobs[1..])
  }

  /** No fast-path write, and no close, is ever inside a transaction. */
  lemma {:induction false} TransactionsHoldAuthorizations(env: Env, w: World, group: seq<Job>, jobs: seq<Job>)
    requires forall j | j in group :: j.Authorize?
    ensures forall t, j | t in Transactions(env, w, group, jobs) && j in t.1 :: j.Authorize?
    decreases jobs
  {
    if jobs != [] {
      if jobs[0].Authorize? {
        TransactionsHoldAuthorizations(env, w, group + [jobs[0]], jobs[1..]);
      } else {
        TransactionsHoldAuthorizations(env, RunJob(env, RunGroup(env, w, group).0, jobs[0]).0, [], jobs[1..]);
      }
    }
  }

  predicate Lost(env: Env, t: (World, seq<Job>)) {
    |t.1| > 1 && env.fate(t.0, t.1).RolledBack?
  }

  ghost predicate AllowedIn(env: Env, ts: seq<(World, seq<Job>)>, c: Completion) {
    exists t | t in ts :: !Lost(env, t) && exists r | r in Requests(t.1) :: Answers(c, r)
  }

  lemma RolledBackGroupAllowsNothing(env: Env, w: World, group: seq<Job>)
    ensures var (w', cs) := RunGroup(env, w, group);
            if Lost(env, (w, group))
            then (forall c | c in cs :: !c.allow) && AllowedConns(RunJobs(env, w, group).1) <= w'.forceClose
            else (w', cs) == RunJobs(env, w, group)
  {
    var (w1, cs) := RunJobs(env, w, group);
    DeniedKeepsAnswers(cs);
    var w2 := RolledBackTo(w, w1);
    RepairKeepsRest(env, w2.(forceClose := w2.forceClose + AllowedConns(cs)), HeldBefore(w, group));
  }

  lemma {:induction false} AllowNeedsCommitFrom(env: Env, w: World, group: seq<Job>, jobs: seq<Job>, c: Completion)
    requires forall j | j in group :: j.Authorize?
    requires c in RunGroupedFrom(env, w, group, jobs).1 && c.allow
    ensures AllowedIn(env, Transactions(env, w, group, jobs), c)
    decreases jobs
  {
    var ts := Transactions(env, w, group, jobs);
    if jobs != [] && jobs[0].Authorize? {
      AllowNeedsCommitFrom(env, w, group + [jobs[0]], jobs[1..], c);
    } else {
      var (w1, cs1) := RunGroup(env, w, group);
      if c in cs1 {
        RolledBackGroupAllowsNothing(env, w, group);
        GroupAnswers(env, w, group);
        var i :| 0 <= i < |cs1| && cs1[i] == c;
        assert Requests(group)[i] in Requests(group);
        assert (w, group) in ts;
      } else {
        assert jobs != [];
        AllowNeedsCommitFrom(env, RunJob(env, w1, jobs[0]).0, [], jobs[1..], c);
      }
    }
  }

  /** An allowed completion answers a request of a group whose transaction was not rolled back. */
  lemma AllowNeedsCommit(env: Env, w: World, jobs: seq<Job>, c: Completion)
    requires c in RunGrouped(env, w, jobs).1 && c.allow
    ensures AllowedIn(env, Transactions(env, w, [], jobs), c)
  {
    AllowNeedsCommitFrom(env, w, [], jobs, c);
  }

  // ----- What a failed group leaves behind

  lemma {:induction false} RepairKeepsRest(env: Env, w: World, before: seq<Held>)
    ensures var w' := Repair(env, w, before);
            w' == w.(publishers := w'.publishers, slots := w'.slots, tick := w'.tick) && w.tick <= w'.tick
    decreases before
  {
    if before != [] { RepairKeepsRest(env, RepairOne(env, w, before[0]), before[1..]); }
  }

  predicate ActivePublisher(w: World, id: string) {
    id in w.publishers && w.publishers[id].active
  }

  predicate ActivePlayer(w: World, id: string) {
    id in w.slots.players && w.slots.players[id].active
  }

  predicate HoldsPublisher(w: World, conn: nat, id: string) {
    Rows(w, conn).publisher.Some? && Rows(w, conn).publisher.value.id == id
  }

  predicate HoldsPlayer(w: World, conn: nat, id: string) {
    Rows(w, conn).player.Some? && Rows(w, conn).player.value.id == id
  }

  function Conns(jobs: seq<Job>): set<nat> {
    set j | j in jobs && j.Authorize? :: j.request.conn
  }

  lemma AuthorizeTouchesOwnConn(env: Env, w: World, req: Request, conn: nat)
    requires conn != req.conn
    ensures Rows(RunAuthorize(env, w, req).0, conn) == Rows(w, conn)
  {
  }

  lemma {:induction false} GroupTouchesOwnConns(env: Env, w: World, group: seq<Job>, conn: nat)
    requires (forall j | j in group :: j.Authorize?) && conn !in Conns(group)
    ensures Rows(RunJobs(env, w, group).0, conn) == Rows(w, conn)
    decreases group
  {
    if group != [] {
      assert group[0] in group;
      AuthorizeTouchesOwnConn(env, w, group[0].request, conn);
      GroupTouchesOwnConns(env, RunJob(env, w, group[0]).0, group[1..], conn);
    }
  }

  lemma {:induction false} HeldBeforeIs(w: World, group: seq<Job>, h: Held)
    ensures h in HeldBefore(w, group) <==> h.conn in Conns(group) && h.session == Rows(w, h.conn)
    decreases group
  {
    if group != [] {
      HeldBeforeIs(w, group[1..], h);
      assert group == [group[0]] + group[1..];
      assert Conns(group) == Conns(group[1..]) + if group[0].Authorize? then {group[0].request.conn} else {};
    }
  }

  /** A session's rows are within what SQLite can store, so a deactivation is not refused for its byte count. */
  predicate Storable(s: Session) {
    && (s.publisher.Some? ==> s.publisher.value.bytesIn <= I64_MAX)
    && (s.player.Some? ==> s.player.value.bytesOut <= I64_MAX)
  }

  /** Reservations leave the rows alone. */
  lemma {:induction false} ReservingKeepsRows(s: S.Slots, viewers: seq<string>)
    ensures var s' := ReservedFor(s, viewers); s' == s.(reserved := s'.reserved) && s.reserved <= s'.reserved
    decreases viewers
  {
    if viewers != [] { ReservingKeepsRows(S.Reserved(s, viewers[0]).0, viewers[1..]); }
  }

  lemma DeactivatedAlone(env: Env, w: World, p: S.Player, id: string)
    requires p.bytesOut <= I64_MAX && !p.active && env.io(w.tick)
    ensures ActivePlayer(PlayerUpdate(env, w, p).0, id) <==> ActivePlayer(w, id) && p.id != id
  {
    ReservingKeepsRows(w.slots, env.reserves(w.tick));
  }

  lemma RepairOneActive(env: Env, w: World, h: Held, id: string)
    requires Storable(h.session) && forall t | t >= w.tick :: env.io(t)
    ensures var w' := RepairOne(env, w, h);
            && (ActivePublisher(w', id) <==>
                ActivePublisher(w, id) && !(LostPublisher(w, h) && h.session.publisher.value.id == id))
            && (ActivePlayer(w', id) <==>
                ActivePlayer(w, id) && !(LostPlayer(w, h) && h.session.player.value.id == id))
  {
    var w1 := if LostPublisher(w, h)
              then PublisherUpdate(env, w, h.session.publisher.value.(active := false)).0 else w;
    if LostPlayer(w1, h) { DeactivatedAlone(env, w1, h.session.player.value.(active := false), id); }
  }

  lemma {:induction false} RepairActive(env: Env, w: World, before: seq<Held>, id: string)
    requires (forall h | h in before :: Storable(h.session)) && forall t | t >= w.tick :: env.io(t)
    ensures var w' := Repair(env, w, before);
            && (ActivePublisher(w', id) <==>
                && ActivePublisher(w, id)
                && !exists h | h in before :: LostPublisher(w, h) && h.session.publisher.value.id == id)
            && (ActivePlayer(w', id) <==>
                ActivePlayer(w, id) && !exists h | h in before :: LostPlayer(w, h) && h.session.player.value.id == id)
    decreases before
  {
    if before != [] {
      var w1 := RepairOne(env, w, before[0]);
      RepairOneActive(env, w, before[0], id);
      assert w1.conns == w.conns;
      assert forall h :: LostPublisher(w1, h) == LostPublisher(w, h) && LostPlayer(w1, h) == LostPlayer(w, h);
      RepairActive(env, w1, before[1..], id);
      assert before == [before[0]] + before[1..];
    }
  }

  /** After a failed group: the rows active before it, minus those whose connection now tracks another row or none. */
  lemma FailedGroupLeavesHeldRows(env: Env, w: World, group: seq<Job>, id: string)
    requires Lost(env, (w, group)) && forall j | j in group :: j.Authorize?
    requires forall conn :: Storable(Rows(w, conn))
    requires forall t | t >= RunJobs(env, w, group).0.tick :: env.io(t)
    ensures var w' := RunGroup(env, w, group).0;
            && (ActivePublisher(w', id) <==>
                ActivePublisher(w, id) && forall conn :: HoldsPublisher(w, conn, id) ==> HoldsPublisher(w', conn, id))
            && (ActivePlayer(w', id) <==>
                ActivePlayer(w, id) && forall conn :: HoldsPlayer(w, conn, id) ==> HoldsPlayer(w', conn, id))
  {
    var (w1, cs) := RunJobs(env, w, group);
    var w2 := RolledBackTo(w, w1).(forceClose := w1.forceClose + AllowedConns(cs));
    var before := HeldBefore(w, group);
    var w' := Repair(env, w2, before);
    RepairKeepsRest(env, w2, before);
    forall h | h in before ensures Storable(h.session) { HeldBeforeIs(w, group, h); }
    RepairActive(env, w2, before, id);
    forall conn ensures HoldsPublisher(w, conn, id) && !HoldsPublisher(w', conn, id) ==>
                          exists h | h in before :: LostPublisher(w2, h) && h.session.publisher.value.id == id
                ensures HoldsPlayer(w, conn, id) && !HoldsPlayer(w', conn, id) ==>
                          exists h | h in before :: LostPlayer(w2, h) && h.session.player.value.id == id
    {
      var h := Held(conn, Rows(w, conn));
      HeldBeforeIs(w, group, h);
      if conn !in Conns(group) { GroupTouchesOwnConns(env, w, group, conn); }
    }
    forall h | h in before ensures LostPublisher(w2, h) && h.session.publisher.value.id == id ==>
                                     HoldsPublisher(w, h.conn, id) && !HoldsPublisher(w', h.conn, id)
                           ensures LostPlayer(w2, h) && h.session.player.value.id == id ==>
                                     HoldsPlayer(w, h.conn, id) && !HoldsPlayer(w', h.conn, id)
    {
      HeldBeforeIs(w, group, h);
    }
  }

  // ----- One active publisher per stream, whatever the worker does

  ghost predicate OnePublisher(w: World) {
    P.OneActivePerStream(w.publishers)
  }

  lemma PublisherCallsKeepOne(env: Env, w: World, p: P.Publisher)
    requires OnePublisher(w)
    ensures OnePublisher(PublisherUpdate(env, w, p).0) && OnePublisher(PublisherTryAcquire(env, w, p).0)
  {
    P.UpdatedKeepsOne(w.publishers, p.id, p, env.io(w.tick));
    P.AcquiredKeepsOne(w.publishers, p, env.io(w.tick));
  }

  lemma TryPublishKeepsOne(env: Env, w: World, req: Request, g: Grant)
    requires OnePublisher(w)
    ensures OnePublisher(TryPublish(env, w, req, g).0)
  {
    var row := P.Publisher(req.sessionId, g.streamId, req.app, g.streamName, P.NO_MEDIA, 0, 0.0, 0.0, g.at, true);
    var prior := Rows(w, req.conn).publisher;
    var w1 := w;
    if prior.Some? {
      PublisherCallsKeepOne(env, w, prior.value.(active := false));
      w1 := PublisherUpdate(env, w, prior.value.(active := false)).0;
    }
    PublisherCallsKeepOne(env, w1, row);
    var w2 := PublisherTryAcquire(env, w1, row).0;
    if prior.Some? {
      PublisherCallsKeepOne(env, w2, prior.value.(active := true));
      var back := prior.value.(active := true);
      PublisherCallsKeepOne(env, PublisherUpdate(env, w2, back).0, back);
    }
  }

  lemma PlaysKeepPublishers(env: Env, w: World, req: Request, g: Grant)
    ensures TryPlay(env, w, req, g).0.publishers == w.publishers
  {
  }

  lemma CloseKeepsOne(env: Env, w: World, conn: nat)
    requires OnePublisher(w)
    ensures OnePublisher(OnClose(env, w, conn))
  {
    var w0 := w.(conns := w.conns - {conn}, forceClose := w.forceClose - {conn});
    if Rows(w, conn).publisher.Some? {
      PublisherCallsKeepOne(env, w0, Rows(w, conn).publisher.value.(active := false));
    }
  }

  lemma PersistPlayKeepsPublishers(env: Env, w: World, conn: nat, row: S.Player)
    ensures PersistFastPlay(env, w, conn, row).publishers == w.publishers
  {
  }

  lemma PersistPublishKeepsOne(env: Env, w: World, conn: nat, row: P.Publisher)
    requires OnePublisher(w)
    ensures OnePublisher(PersistFastPublish(env, w, conn, row))
  {
    PublisherCallsKeepOne(env, w, row);
    PublisherCallsKeepOne(env, PublisherTryAcquire(env, w, row).0, row.(active := false));
  }

  lemma JobKeepsOne(env: Env, w: World, job: Job)
    requires OnePublisher(w)
    ensures OnePublisher(RunJob(env, w, job).0)
  {
    match job
    case Authorize(req) =>
      var grant := env.decide(w.outcomes, req);
      if grant.Some? {
        if req.kind.Publish? {
          TryPublishKeepsOne(env, w, req, grant.value);
        } else {
          PlaysKeepPublishers(env, w, req, grant.value);
        }
      }
    case Close(conn) => CloseKeepsOne(env, w, conn);
    case PersistPlay(conn, row) => PersistPlayKeepsPublishers(env, w, conn, row);
    case PersistPublish(conn, row) => PersistPublishKeepsOne(env, w, conn, row);
  }

  lemma {:induction false} JobsKeepOne(env: Env, w: World, jobs: seq<Job>)
    requires OnePublisher(w)
    ensures OnePublisher(RunJobs(env, w, jobs).0)
    decreases jobs
  {
    if jobs != [] {
      JobKeepsOne(env, w, jobs[0]);
      JobsKeepOne(env, RunJob(env, w, jobs[0]).0, jobs[1..]);
    }
  }

  lemma {:induction false} RepairKeepsOne(env: Env, w: World, before: seq<Held>)
    requires OnePublisher(w)
    ensures OnePublisher(Repair(env, w, before))
    decreases before
  {
    if before != [] {
      var h := before[0];
      if LostPublisher(w, h) { PublisherCallsKeepOne(env, w, h.session.publisher.value.(active := false)); }
      assert OnePublisher(RepairOne(env, w, h));
      RepairKeepsOne(env, RepairOne(env, w, h), before[1..]);
    }
  }

  lemma GroupKeepsOne(env: Env, w: World, group: seq<Job>)
    requires OnePublisher(w)
    ensures OnePublisher(RunGroup(env, w, group).0)
  {
    JobsKeepOne(env, w, group);
    var (w1, cs) := RunJobs(env, w, group);
    var w2 := RolledBackTo(w, w1);
    RepairKeepsOne(env, w2.(forceClose := w2.forceClose + AllowedConns(cs)), HeldBefore(w, group));
  }

  lemma {:induction false} GroupedFromKeepsOne(env: Env, w: World, group: seq<Job>, jobs: seq<Job>)
    requires OnePublisher(w)
    ensures OnePublisher(RunGroupedFrom(env, w, group, jobs).0)
    decreases jobs
  {
    if jobs != [] && jobs[0].Authorize? {
      GroupedFromKeepsOne(env, w, group + [jobs[0]], jobs[1..]);
    } else {
      GroupKeepsOne(env, w, group);
      if jobs != [] {
        var w1 := RunGroup(env, w, group).0;
        JobKeepsOne(env, w1, jobs[0]);
        GroupedFromKeepsOne(env, RunJob(env, w1, jobs[0]).0, [], jobs[1..]);
      }
    }
  }

  /** No job list, storage fault or failed commit gives a stream two active publishers. */
  lemma WorkerKeepsOnePublisher(env: Env, w: World, jobs: seq<Job>)
    requires OnePublisher(w)
    ensures OnePublisher(RunGrouped(env, w, jobs).0)
  {
    GroupedFromKeepsOne(env, w, [], jobs);
  }
}
