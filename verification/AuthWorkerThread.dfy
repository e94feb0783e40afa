/** The worker's loops over its jobs, proved to do what `AuthWorker` says. */
module AuthWorkerThread {
  import opened AuthWorker
  import Laws = AuthWorkerLaws

  class Worker {
    var w: World
    const env: Env

    constructor (env: Env, w: World)
      ensures this.env == env && this.w == w
    {
      this.env, this.w := env, w;
    }

    method RunJobList(jobs: seq<Job>) returns (completions: seq<Completion>)
      modifies `w
      ensures (w, completions) == RunJobs(env, old(w), jobs)
    {
      completions := [];
      for i := 0 to |jobs|
        invariant RunJobs(env, old(w), jobs[..i]) == (w, completions)
      {
        assert jobs[..i + 1] == jobs[..i] + [jobs[i]];
        Laws.RunJobsAppend(env, old(w), jobs[..i], [jobs[i]]);
        Laws.RunJobsOne(env, w, jobs[i]);
        var (w', cs) := RunJob(env, w, jobs[i]);
        w := w';
        completions := completions + cs;
      }
      assert jobs[..|jobs|] == jobs;
    }

    /** Runs a group in one transaction; after a failed commit every allowed request becomes a denial with a forced
        close, and rows the rollback brought back to life are deactivated again. */
    method RunAuthorizationGroup(group: seq<Job>) returns (completions: seq<Completion>)
      modifies `w
      ensures (w, completions) == RunGroup(env, old(w), group)
    {
      if |group| <= 1 {
        completions := RunJobList(group);
        return;
      }
      var before := CollectHeld(group);
      var start := w;
      completions := RunJobList(group);
      if !env.fate(start, group).RolledBack? { return; }
      w := RolledBackTo(start, w);
      completions := DenyAll(completions);
      for i := 0 to |before|
        invariant Repair(env, w, before[i..])
               == Repair(env, RolledBackTo(start, RunJobs(env, start, group).0).(forceClose :=
                    RunJobs(env, start, group).0.forceClose + AllowedConns(RunJobs(env, start, group).1)), before)
      {
        assert before[i..][0] == before[i] && before[i..][1..] == before[i + 1..];
        w := RepairOne(env, w, before[i]);
      }
    }

    method CollectHeld(group: seq<Job>) returns (before: seq<Held>)
      ensures before == HeldBefore(w, group)
    {
      before := [];
      for i := 0 to |group|
        invariant before + HeldBefore(w, group[i..]) == HeldBefore(w, group)
      {
        assert group[i..][1..] == group[i + 1..];
        if group[i].Authorize? {
          before := before + [Held(group[i].request.conn, Rows(w, group[i].request.conn))];
        }
      }
      assert before == before + HeldBefore(w, group[|group|..]);
    }

    method DenyAll(cs: seq<Completion>) returns (denied: seq<Completion>)
      modifies `w
      ensures denied == Denied(cs)
      ensures w == old(w).(forceClose := old(w).forceClose + AllowedConns(cs))
    {
      denied := [];
      for i := 0 to |cs|
        invariant denied + Denied(cs[i..]) == Denied(cs)
        invariant w == old(w).(forceClose := old(w).forceClose + AllowedConns(cs[..i]))
      {
        Laws.DeniedFrom(cs, i);
        Laws.AllowedTo(cs, i);
        assert denied + Denied(cs[i..]) == (denied + [cs[i].(allow := false)]) + Denied(cs[i + 1..]);
        if cs[i].allow { w := w.(forceClose := w.forceClose + {cs[i].conn}); }
        denied := denied + [cs[i].(allow := false)];
      }
      assert cs[..|cs|] == cs;
      assert denied == denied + Denied(cs[|cs|..]);
    }

    /** The collected group, then the job that cuts it off. */
    method RunGroupThen(group: seq<Job>, job: Job) returns (completions: seq<Completion>)
      modifies `w
      ensures var (w1, cs1) := RunGroup(env, old(w), group);
              var (w2, cs2) := RunJob(env, w1, job);
              w == w2 && completions == cs1 + cs2
    {
      var cs1 := RunAuthorizationGroup(group);
      Laws.RunJobsOne(env, w, job);
      var cs2 := RunJobList([job]);
      completions := cs1 + cs2;
    }

    method RunGroupedJobs(jobs: seq<Job>) returns (completions: seq<Completion>)
      modifies `w
      ensures (w, completions) == RunGrouped(env, old(w), jobs)
    {
      completions := [];
      var group := [];
      for i := 0 to |jobs|
        invariant RunGroupedFrom(env, w, group, jobs[i..]).0 == RunGrouped(env, old(w), jobs).0
        invariant completions + RunGroupedFrom(env, w, group, jobs[i..]).1 == RunGrouped(env, old(w), jobs).1
      {
        assert jobs[i..][0] == jobs[i] && jobs[i..][1..] == jobs[i + 1..];
        if jobs[i].Authorize? {
          group := group + [jobs[i]];
        } else {
          ghost var w0 := w;
          var cs := RunGroupThen(group, jobs[i]);
          ghost var rest := RunGroupedFrom(env, w, [], jobs[i + 1..]).1;
          assert RunGroupedFrom(env, w0, group, jobs[i..]).1 == cs + rest;
          assert completions + (cs + rest) == (completions + cs) + rest;
          completions := completions + cs;
          group := [];
        }
      }
      assert jobs[|jobs|..] == [];
      var cs := RunAuthorizationGroup(group);
      completions := completions + cs;
    }
  }
}
