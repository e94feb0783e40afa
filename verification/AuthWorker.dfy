/**
 The authorization worker: the bridge's per-connection sessions, the jobs that change them, and the group commit
 that runs consecutive authorizations in one transaction.

 A `World` is everything a job can touch. What a job cannot control comes from an `Env`: whether SQLite accepts the
 n-th write, what the key lookup, stream checks and failure limiter decide (from the outcomes so far), how each
 group's transaction ends, and which reservations other threads ask for meanwhile.
 */
module AuthWorker {
  import opened Basics
  import S = SessionTables
  import P = PublisherTable

  datatype AuthKind = Publish | Play

  datatype Request = Request(kind: AuthKind, conn: nat, app: string, key: string, requestId: nat, sessionId: string)

  /** What a publish or play key resolves to. */
  datatype Grant = Grant(streamId: string, streamName: string, viewerId: string, at: int)

  datatype Outcome = Outcome(request: Request, allowed: bool)

  datatype Job =
    | Authorize(request: Request)
    | Close(conn: nat)
    | PersistPlay(conn: nat, player: S.Player)
    | PersistPublish(conn: nat, publisher: P.Publisher)

  datatype Completion = Completion(
    kind: AuthKind, conn: nat, allow: bool, requestId: nat, publisherId: Option<string>, playerId: Option<string>)

  datatype Session = Session(publisher: Option<P.Publisher>, player: Option<S.Player>)

  const NO_SESSION: Session := Session(None, None)

  datatype World = World(
    slots: S.Slots, publishers: P.PublisherRows, conns: map<nat, Session>, forceClose: set<nat>,
    undeactivated: seq<string>, outcomes: seq<Outcome>, tick: nat)

  datatype Fate = Unbatched | Committed | RolledBack

  /** `reserves`: for which viewers RTMP threads ask a reservation before the n-th database call. */
  datatype Env = Env(
    io: nat -> bool, decide: (seq<Outcome>, Request) -> Option<Grant>, fate: (World, seq<Job>) -> Fate,
    reserves: nat -> seq<string>)

  function Rows(w: World, conn: nat): Session {
    if conn in w.conns then w.conns[conn] else NO_SESSION
  }

  // ----- Database calls made by jobs

  /** What RTMP threads reserve while the worker runs. */
  function ReservedFor(s: S.Slots, viewers: seq<string>): S.Slots
    decreases viewers
  {
    if viewers == [] then s else ReservedFor(S.Reserved(s, viewers[0]).0, viewers[1..])
  }

  function Meanwhile(env: Env, w: World): S.Slots {
    ReservedFor(w.slots, env.reserves(w.tick))
  }

  function PublisherUpdate(env: Env, w: World, p: P.Publisher): (World, bool) {
    var (rows, ok) := P.Updated(w.publishers, p.id, p, env.io(w.tick));
    (w.(publishers := rows, tick := w.tick + 1), ok)
  }

  function PublisherTryAcquire(env: Env, w: World, p: P.Publisher): (World, bool) {
    var (rows, ok) := P.Acquired(w.publishers, p, env.io(w.tick));
    (w.(publishers := rows, tick := w.tick + 1), ok)
  }

  function PlayerUpdate(env: Env, w: World, p: S.Player): (World, bool) {
    var (slots, ok) := S.Updated(Meanwhile(env, w), p.id, p, env.io(w.tick), []);
    (w.(slots := slots, tick := w.tick + 1), ok)
  }

  function PlayerTryAcquire(env: Env, w: World, p: S.Player): (World, bool) {
    var (slots, ok) := S.Acquired(Meanwhile(env, w), p, env.io(w.tick), []);
    (w.(slots := slots, tick := w.tick + 1), ok)
  }

  function PlayerInsertReserved(env: Env, w: World, p: S.Player): (World, bool) {
    var (slots, ok) := S.ReservedInserted(Meanwhile(env, w), p, env.io(w.tick));
    (w.(slots := slots, tick := w.tick + 1), ok)
  }

  // ----- The bridge

  function RestorePublisher(env: Env, w: World, prior: Option<P.Publisher>): World {
    if prior.None? then w
    else
      var (w1, ok) := PublisherUpdate(env, w, prior.value.(active := true));
      if ok then w1 else PublisherTryAcquire(env, w1, prior.value.(active := true)).0
  }

  function RestorePlayer(env: Env, w: World, prior: Option<S.Player>): World {
    if prior.None? then w
    else
      var (w1, ok) := PlayerUpdate(env, w, prior.value.(active := true));
      if ok then w1 else PlayerTryAcquire(env, w1, prior.value.(active := true)).0
  }

  function TryPublish(env: Env, w: World, req: Request, g: Grant): (World, bool) {
    var row := P.Publisher(req.sessionId, g.streamId, req.app, g.streamName, P.NO_MEDIA, 0, 0.0, 0.0, g.at, true);
    var prior := Rows(w, req.conn).publisher;
    var (w1, released) := if prior.None? then (w, true) else PublisherUpdate(env, w, prior.value.(active := false));
    if !released then (w1, false)
    else
      var (w2, ok) := PublisherTryAcquire(env, w1, row);
      if !ok then (RestorePublisher(env, w2, prior), false)
      else (w2.(conns := w2.conns[req.conn := Rows(w2, req.conn).(publisher := Some(row))]), true)
  }

  function TryPlay(env: Env, w: World, req: Request, g: Grant): (World, bool) {
    var row := S.Player(req.sessionId, g.streamId, g.viewerId, req.app, g.streamName, 0, 0.0, 0.0, g.at, true);
    var prior := Rows(w, req.conn).player;
    var (w1, released) := if prior.None? then (w, true) else PlayerUpdate(env, w, prior.value.(active := false));
    if !released then (w1, false)
    else
      var (w2, ok) := PlayerTryAcquire(env, w1, row);
      if !ok then (RestorePlayer(env, w2, prior), false)
      else (w2.(conns := w2.conns[req.conn := Rows(w2, req.conn).(player := Some(row))]), true)
  }

  function RunAuthorize(env: Env, w: World, req: Request): (World, Completion) {
    var grant := env.decide(w.outcomes, req);
    var (w1, allow) :=
      if grant.None? then (w, false)
      else if req.kind.Publish? then TryPublish(env, w, req, grant.value)
      else TryPlay(env, w, req, grant.value);
    var rows := Rows(w1, req.conn);
    var publisherId :=
      if allow && req.kind.Publish? && rows.publisher.Some? then Some(rows.publisher.value.id) else None;
    var playerId := if allow && req.kind.Play? && rows.player.Some? then Some(rows.player.value.id) else None;
    (w1.(outcomes := w1.outcomes + [Outcome(req, allow)]),
     Completion(req.kind, req.conn, allow, req.requestId, publisherId, playerId))
  }

  function OnClose(env: Env, w: World, conn: nat): World {
    var rows := Rows(w, conn);
    var w0 := w.(conns := w.conns - {conn}, forceClose := w.forceClose - {conn});
    var (w1, ok1) := if rows.publisher.None? then (w0, true)
                     else PublisherUpdate(env, w0, rows.publisher.value.(active := false));
    var w2 := if ok1 then w1 else w1.(undeactivated := w1.undeactivated + [rows.publisher.value.id]);
    var (w3, ok3) := if rows.player.None? then (w2, true)
                     else PlayerUpdate(env, w2, rows.player.value.(active := false));
    if ok3 then w3 else w3.(undeactivated := w3.undeactivated + [rows.player.value.id])
  }

  function PersistFastPlay(env: Env, w: World, conn: nat, row: S.Player): World {
    var (w1, ok) := PlayerInsertReserved(env, w, row);
    var held := Rows(w1, conn).player.Some? && Rows(w1, conn).player.value.id == row.id;
    if !ok then
      var w2 := if held then w1.(conns := w1.conns[conn := Rows(w1, conn).(player := None)]) else w1;
      w2.(forceClose := w2.forceClose + {conn})
    else if held then w1
    else PlayerUpdate(env, w1, row.(active := false)).0
  }

  function PersistFastPublish(env: Env, w: World, conn: nat, row: P.Publisher): World {
    var (w1, ok) := PublisherTryAcquire(env, w, row);
    var held := Rows(w1, conn).publisher.Some? && Rows(w1, conn).publisher.value.id == row.id;
    if !ok then
      var w2 := if held then w1.(conns := w1.conns[conn := Rows(w1, conn).(publisher := None)]) else w1;
      w2.(forceClose := w2.forceClose + {conn})
    else if held then w1
    else PublisherUpdate(env, w1, row.(active := false)).0
  }

  function RunJob(env: Env, w: World, job: Job): (World, seq<Completion>) {
    match job
    case Authorize(req) => var (w1, c) := RunAuthorize(env, w, req); (w1, [c])
    case Close(conn) => (OnClose(env, w, conn), [])
    case PersistPlay(conn, row) => (PersistFastPlay(env, w, conn, row), [])
    case PersistPublish(conn, row) => (PersistFastPublish(env, w, conn, row), [])
  }

  // ----- One job after another: what grouping must look like from outside

  function RunJobs(env: Env, w: World, jobs: seq<Job>): (World, seq<Completion>)
    decreases jobs
  {
    if jobs == [] then (w, [])
    else
      var (w1, c) := RunJob(env, w, jobs[0]);
      var (w2, cs) := RunJobs(env, w1, jobs[1..]);
      (w2, c + cs)
  }

  // ----- A group in one transaction

  datatype Held = Held(conn: nat, session: Session)

  function HeldBefore(w: World, group: seq<Job>): seq<Held>
    decreases group
  {
    if group == [] then []
    else (if group[0].Authorize? then [Held(group[0].request.conn, Rows(w, group[0].request.conn))] else [])
         + HeldBefore(w, group[1..])
  }

  function Denied(cs: seq<Completion>): seq<Completion>
    decreases cs
  {
    if cs == [] then [] else [cs[0].(allow := false)] + Denied(cs[1..])
  }

  function AllowedConns(cs: seq<Completion>): set<nat> {
    set c | c in cs && c.allow :: c.conn
  }

  predicate LostPublisher(w: World, h: Held) {
    h.session.publisher.Some? &&
    (Rows(w, h.conn).publisher.None? || Rows(w, h.conn).publisher.value.id != h.session.publisher.value.id)
  }

  predicate LostPlayer(w: World, h: Held) {
    h.session.player.Some? &&
    (Rows(w, h.conn).player.None? || Rows(w, h.conn).player.value.id != h.session.player.value.id)
  }

  /** Deactivates again the rows a connection held before the group and holds no longer. */
  function RepairOne(env: Env, w: World, h: Held): World {
    var w1 := if LostPublisher(w, h) then PublisherUpdate(env, w, h.session.publisher.value.(active := false)).0 else w;
    if LostPlayer(w1, h) then PlayerUpdate(env, w1, h.session.player.value.(active := false)).0 else w1
  }

  function Repair(env: Env, w: World, before: seq<Held>): World
    decreases before
  {
    if before == [] then w else Repair(env, RepairOne(env, w, before[0]), before[1..])
  }

  /** The tables as `w` had them, everything else as the group left it. */
  function RolledBackTo(w: World, w1: World): World {
    w1.(publishers := w.publishers, slots := S.BatchEnded(w1.slots.(saved := Some(w.slots.players)), false))
  }

  function RunGroup(env: Env, w: World, group: seq<Job>): (World, seq<Completion>) {
    var (w1, cs) := RunJobs(env, w, group);
    if |group| <= 1 || !env.fate(w, group).RolledBack? then (w1, cs)
    else
      var w2 := RolledBackTo(w, w1);
      (Repair(env, w2.(forceClose := w2.forceClose + AllowedConns(cs)), HeldBefore(w, group)), Denied(cs))
  }

  /** Submission order, with `group` the authorizations collected so far. */
  function RunGroupedFrom(env: Env, w: World, group: seq<Job>, jobs: seq<Job>): (World, seq<Completion>)
    decreases jobs
  {
    if jobs == [] then RunGroup(env, w, group)
    else if jobs[0].Authorize? then RunGroupedFrom(env, w, group + [jobs[0]], jobs[1..])
    else
      var (w1, cs1) := RunGroup(env, w, group);
      var (w2, cs2) := RunJob(env, w1, jobs[0]);
      var (w3, cs3) := RunGroupedFrom(env, w2, [], jobs[1..]);
      (w3, cs1 + cs2 + cs3)
  }

  function RunGrouped(env: Env, w: World, jobs: seq<Job>): (World, seq<Completion>) {
    RunGroupedFrom(env, w, [], jobs)
  }
}
