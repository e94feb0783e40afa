/** What each job of the authorization worker does to the rows: which become active, which inactive, and when. */
module AuthWorkerJobs {
  import opened Basics
  import opened AuthWorker
  import opened AuthWorkerLaws
  import P = PublisherTable
  import S = SessionTables

  /** From now on SQLite accepts every write. */
  ghost predicate Reliable(env: Env, w: World) {
    forall t | t >= w.tick :: env.io(t)
  }

  // ----- One row at a time

  lemma OffPublisher(env: Env, w: World, p: P.Publisher, id: string)
    requires !p.active
    ensures var (w', ok) := PublisherUpdate(env, w, p);
            && (ok ==> (ActivePublisher(w', id) <==> ActivePublisher(w, id) && p.id != id))
            && (!ok ==> w'.publishers == w.publishers)
            && (p.bytesIn <= I64_MAX && env.io(w.tick) && p.id in w.publishers ==> ok)
  {
    P.UpdateExactly(w.publishers, p.id, p, env.io(w.tick));
  }

  lemma OffPlayer(env: Env, w: World, p: S.Player, id: string)
    requires !p.active
    ensures var (w', ok) := PlayerUpdate(env, w, p);
            && (ok ==> (ActivePlayer(w', id) <==> ActivePlayer(w, id) && p.id != id))
            && (!ok ==> w'.slots.players == w.slots.players)
            && w'.slots.players.Keys == w.slots.players.Keys && w'.conns == w.conns && w'.forceClose == w.forceClose
            && (p.bytesOut <= I64_MAX && env.io(w.tick) && p.id in w.slots.players ==> ok)
  {
    ReservingKeepsRows(w.slots, env.reserves(w.tick));
    S.UpdateExactly(Meanwhile(env, w), p.id, p, env.io(w.tick), []);
  }

  // ----- Closing

  /** Whatever storage does: the connection is forgotten, a row it held that is still active is queued for another try,
      and no other row's activity changes. */
  lemma CloseExactly(env: Env, w: World, conn: nat, id: string)
    ensures var w' := RunJob(env, w, Close(conn)).0;
            && w'.conns == w.conns - {conn} && w'.forceClose == w.forceClose - {conn}
            && w.undeactivated <= w'.undeactivated
            && (HoldsPublisher(w, conn, id) && ActivePublisher(w', id) ==> id in w'.undeactivated)
            && (HoldsPlayer(w, conn, id) && ActivePlayer(w', id) ==> id in w'.undeactivated)
            && (!HoldsPublisher(w, conn, id) ==> (ActivePublisher(w', id) <==> ActivePublisher(w, id)))
            && (!HoldsPlayer(w, conn, id) ==> (ActivePlayer(w', id) <==> ActivePlayer(w, id)))
  {
    var rows := Rows(w, conn);
    var w0 := w.(conns := w.conns - {conn}, forceClose := w.forceClose - {conn});
    if rows.publisher.Some? { OffPublisher(env, w0, rows.publisher.value.(active := false), id); }
    var (w1, ok1) := if rows.publisher.None? then (w0, true)
                     else PublisherUpdate(env, w0, rows.publisher.value.(active := false));
    var w2 := if ok1 then w1 else w1.(undeactivated := w1.undeactivated + [rows.publisher.value.id]);
    if rows.player.Some? { OffPlayer(env, w2, rows.player.value.(active := false), id); }
  }

  /** With storage accepting, a close deactivates exactly the rows the connection held. */
  lemma CloseDeactivates(env: Env, w: World, conn: nat, id: string)
    requires Storable(Rows(w, conn)) && Reliable(env, w)
    ensures var w' := RunJob(env, w, Close(conn)).0;
            && conn !in w'.conns
            && (ActivePublisher(w', id) <==> ActivePublisher(w, id) && !HoldsPublisher(w, conn, id))
            && (ActivePlayer(w', id) <==> ActivePlayer(w, id) && !HoldsPlayer(w, conn, id))
  {
    var rows := Rows(w, conn);
    var w0 := w.(conns := w.conns - {conn}, forceClose := w.forceClose - {conn});
    if rows.publisher.Some? { OffPublisher(env, w0, rows.publisher.value.(active := false), id); }
    var (w1, ok1) := if rows.publisher.None? then (w0, true)
                     else PublisherUpdate(env, w0, rows.publisher.value.(active := false));
    var w2 := if ok1 then w1 else w1.(undeactivated := w1.undeactivated + [rows.publisher.value.id]);
    if rows.player.Some? { OffPlayer(env, w2, rows.player.value.(active := false), id); }
  }

  // ----- Giving a row back after a refused switch

  /** A released publisher row is active again exactly when nobody else has taken its stream; no other row changes. */
  lemma RestorePublisherExactly(env: Env, w: World, p: P.Publisher, id: string)
    requires Reliable(env, w) && p.bytesIn <= I64_MAX && p.id in w.publishers && !w.publishers[p.id].active
    ensures var w' := RestorePublisher(env, w, Some(p));
            && (ActivePublisher(w', p.id) <==> forall other :: !P.ActiveOn(w.publishers, other, p.streamId))
            && (id != p.id ==> (ActivePublisher(w', id) <==> ActivePublisher(w, id)))
            && w'.conns == w.conns
  {
    var on := p.(active := true);
    P.UpdateExactly(w.publishers, p.id, on, true);
    var (w1, ok) := PublisherUpdate(env, w, on);
    if !ok { P.AcquireExactly(w1.publishers, on, true); }
  }

  /** A released player row is active again exactly when its viewer still has a slot when it is written back. */
  lemma RestorePlayerExactly(env: Env, w: World, p: S.Player, id: string)
    requires Reliable(env, w) && p.bytesOut <= I64_MAX && p.viewerId != ""
    requires p.id in w.slots.players && !w.slots.players[p.id].active
    ensures var w' := RestorePlayer(env, w, Some(p));
            && (ActivePlayer(w', p.id) <==> S.Taken(Meanwhile(env, w), p.viewerId) < S.MAX_CONNECTIONS_PER_PLAY_KEY)
            && (id != p.id ==> (ActivePlayer(w', id) <==> ActivePlayer(w, id)))
            && w'.conns == w.conns
  {
    var on := p.(active := true);
    ReservingKeepsRows(w.slots, env.reserves(w.tick));
    S.UpdateExactly(Meanwhile(env, w), p.id, on, true, []);
    var (w1, ok) := PlayerUpdate(env, w, on);
    if !ok {
      ReservingKeepsRows(w1.slots, env.reserves(w1.tick));
      S.AcquireExactly(Meanwhile(env, w1), on, true, []);
    }
  }

  // ----- Authorizing

  lemma DeniedWithoutGrant(env: Env, w: World, req: Request)
    requires env.decide(w.outcomes, req).None?
    ensures var (w', cs) := RunJob(env, w, Authorize(req));
            !cs[0].allow && w' == w.(outcomes := w.outcomes + [Outcome(req, false)])
  {
  }

  /** The world once the connection's publisher row has been released. */
  function PublisherReleased(env: Env, w: World, conn: nat): World {
    var prior := Rows(w, conn).publisher;
    if prior.None? then w else PublisherUpdate(env, w, prior.value.(active := false)).0
  }

  lemma ReleaseExactly(env: Env, w: World, conn: nat, id: string, stream: string)
    requires Reliable(env, w) && Storable(Rows(w, conn))
    requires Rows(w, conn).publisher.Some? ==> Rows(w, conn).publisher.value.id in w.publishers
    ensures var w1 := PublisherReleased(env, w, conn);
            && w1.conns == w.conns && w1.publishers.Keys == w.publishers.Keys && Reliable(env, w1)
            && (P.ActiveOn(w1.publishers, id, stream) <==>
                  P.ActiveOn(w.publishers, id, stream) && !HoldsPublisher(w, conn, id))
            && (HoldsPublisher(w, conn, id) ==> !w1.publishers[id].active)
  {
    var prior := Rows(w, conn).publisher;
    if prior.Some? { P.UpdateExactly(w.publishers, prior.value.id, prior.value.(active := false), env.io(w.tick)); }
  }

  /** With storage accepting and a new session id, a granted publish is allowed exactly when nobody but the connection
      itself is active on the stream. The session's row then is active there and tracked, the connection's old row is
      not active, and no other row's activity changes. */
  lemma PublishExactly(env: Env, w: World, req: Request, g: Grant, id: string)
    requires env.decide(w.outcomes, req) == Some(g) && req.kind.Publish?
    requires Reliable(env, w) && Storable(Rows(w, req.conn)) && req.sessionId !in w.publishers
    requires Rows(w, req.conn).publisher.Some? ==> Rows(w, req.conn).publisher.value.id in w.publishers
    ensures var (w', cs) := RunJob(env, w, Authorize(req));
            && (cs[0].allow <==> forall x :: P.ActiveOn(w.publishers, x, g.streamId) ==> HoldsPublisher(w, req.conn, x))
            && (cs[0].allow ==>
                  && P.ActiveOn(w'.publishers, req.sessionId, g.streamId)
                  && HoldsPublisher(w', req.conn, req.sessionId)
                  && Rows(w', req.conn).player == Rows(w, req.conn).player
                  && Rows(w', req.conn).publisher.value == w'.publishers[req.sessionId]
                  && (id != req.sessionId ==>
                        (ActivePublisher(w', id) <==> ActivePublisher(w, id) && !HoldsPublisher(w, req.conn, id))))
            && (!cs[0].allow ==> w'.conns == w.conns)
  {
    var row := P.Publisher(req.sessionId, g.streamId, req.app, g.streamName, P.NO_MEDIA, 0, 0.0, 0.0, g.at, true);
    var w1 := PublisherReleased(env, w, req.conn);
    forall x ensures P.ActiveOn(w1.publishers, x, g.streamId) <==>
                       P.ActiveOn(w.publishers, x, g.streamId) && !HoldsPublisher(w, req.conn, x)
    {
      ReleaseExactly(env, w, req.conn, x, g.streamId);
    }
    ReleaseExactly(env, w, req.conn, id, if id in w.publishers then w.publishers[id].streamId else "");
    PublishSteps(env, w, req, g);
    P.AcquireExactly(w1.publishers, row, env.io(w1.tick));
  }

  /** A publish is a release, an acquire, and on refusal a restore. */
  lemma PublishSteps(env: Env, w: World, req: Request, g: Grant)
    requires Reliable(env, w) && Storable(Rows(w, req.conn))
    requires Rows(w, req.conn).publisher.Some? ==> Rows(w, req.conn).publisher.value.id in w.publishers
    ensures var row := P.Publisher(req.sessionId, g.streamId, req.app, g.streamName, P.NO_MEDIA, 0, 0.0, 0.0, g.at,
                                   true);
            var (w2, ok) := PublisherTryAcquire(env, PublisherReleased(env, w, req.conn), row);
            var session := Rows(w, req.conn).(publisher := Some(row));
            TryPublish(env, w, req, g) == if ok then (w2.(conns := w2.conns[req.conn := session]), true)
                                          else (RestorePublisher(env, w2, Rows(w, req.conn).publisher), false)
  {
    var prior := Rows(w, req.conn).publisher;
    if prior.Some? { P.UpdateExactly(w.publishers, prior.value.id, prior.value.(active := false), env.io(w.tick)); }
  }

  /** A refused publish on a connection that is publishing leaves every row as active as it was. */
  lemma RefusedPublishKeepsRows(env: Env, w: World, req: Request, g: Grant, id: string)
    requires Reliable(env, w) && Storable(Rows(w, req.conn)) && OnePublisher(w)
    requires var prior := Rows(w, req.conn).publisher;
             prior.Some? ==> P.ActiveOn(w.publishers, prior.value.id, prior.value.streamId)
    ensures var (w', ok) := TryPublish(env, w, req, g); !ok ==> (ActivePublisher(w', id) <==> ActivePublisher(w, id))
  {
    var row := P.Publisher(req.sessionId, g.streamId, req.app, g.streamName, P.NO_MEDIA, 0, 0.0, 0.0, g.at, true);
    var prior := Rows(w, req.conn).publisher;
    var w1 := PublisherReleased(env, w, req.conn);
    PublishSteps(env, w, req, g);
    P.AcquireExactly(w1.publishers, row, env.io(w1.tick));
    var (w2, ok) := PublisherTryAcquire(env, w1, row);
    if !ok && prior.Some? {
      var p := prior.value;
      forall x ensures !P.ActiveOn(w2.publishers, x, p.streamId) { ReleaseExactly(env, w, req.conn, x, p.streamId); }
      ReleaseExactly(env, w, req.conn, id, if id in w.publishers then w.publishers[id].streamId else "");
      RestorePublisherExactly(env, w2, p, id);
    }
  }

  function PlayerReleased(env: Env, w: World, conn: nat): World {
    var prior := Rows(w, conn).player;
    if prior.None? then w else PlayerUpdate(env, w, prior.value.(active := false)).0
  }

  /** The row the connection tracks, if any, is in the table and can be written. */
  predicate PlayerKept(w: World, conn: nat) {
    Storable(Rows(w, conn)) && (Rows(w, conn).player.Some? ==> Rows(w, conn).player.value.id in w.slots.players)
  }

  lemma PlayerReleaseExactly(env: Env, w: World, conn: nat, id: string)
    requires Reliable(env, w) && PlayerKept(w, conn)
    ensures var w1 := PlayerReleased(env, w, conn);
            && w1.conns == w.conns && w1.slots.players.Keys == w.slots.players.Keys && Reliable(env, w1)
            && (ActivePlayer(w1, id) <==> ActivePlayer(w, id) && !HoldsPlayer(w, conn, id))
  {
    var prior := Rows(w, conn).player;
    if prior.Some? {
      ReservingKeepsRows(w.slots, env.reserves(w.tick));
      S.UpdateExactly(Meanwhile(env, w), prior.value.id, prior.value.(active := false), env.io(w.tick), []);
    }
  }

  /** A play is a release, an acquire, and on refusal a restore. */
  lemma PlaySteps(env: Env, w: World, req: Request, g: Grant)
    requires Reliable(env, w) && PlayerKept(w, req.conn)
    ensures var row := S.Player(req.sessionId, g.streamId, g.viewerId, req.app, g.streamName, 0, 0.0, 0.0, g.at, true);
            var (w2, ok) := PlayerTryAcquire(env, PlayerReleased(env, w, req.conn), row);
            var session := Rows(w, req.conn).(player := Some(row));
            TryPlay(env, w, req, g) == if ok then (w2.(conns := w2.conns[req.conn := session]), true)
                                       else (RestorePlayer(env, w2, Rows(w, req.conn).player), false)
  {
    var prior := Rows(w, req.conn).player;
    if prior.Some? {
      ReservingKeepsRows(w.slots, env.reserves(w.tick));
      S.UpdateExactly(Meanwhile(env, w), prior.value.id, prior.value.(active := false), env.io(w.tick), []);
    }
  }

  /** With storage accepting and a new session id, a granted play is allowed exactly when, its old row released and
      counting what other threads have reserved by then, the viewer is under the cap. The session's row then is active
      and tracked, the old row is not active, and no other row's activity changes. */
  lemma PlayExactly(env: Env, w: World, req: Request, g: Grant, id: string)
    requires env.decide(w.outcomes, req) == Some(g) && req.kind.Play?
    requires Reliable(env, w) && PlayerKept(w, req.conn) && req.sessionId !in w.slots.players
    ensures var (w', cs) := RunJob(env, w, Authorize(req));
            var w1 := PlayerReleased(env, w, req.conn);
            && (cs[0].allow <==>
                  g.viewerId != "" && S.Taken(Meanwhile(env, w1), g.viewerId) < S.MAX_CONNECTIONS_PER_PLAY_KEY)
            && (cs[0].allow ==>
                  && ActivePlayer(w', req.sessionId) && w'.slots.players[req.sessionId].viewerId == g.viewerId
                  && HoldsPlayer(w', req.conn, req.sessionId)
                  && Rows(w', req.conn).player.value == w'.slots.players[req.sessionId]
                  && Rows(w', req.conn).publisher == Rows(w, req.conn).publisher
                  && (id != req.sessionId ==>
                        (ActivePlayer(w', id) <==> ActivePlayer(w, id) && !HoldsPlayer(w, req.conn, id))))
            && (!cs[0].allow ==> w'.conns == w.conns)
  {
    var row := S.Player(req.sessionId, g.streamId, g.viewerId, req.app, g.streamName, 0, 0.0, 0.0, g.at, true);
    var w1 := PlayerReleased(env, w, req.conn);
    PlaySteps(env, w, req, g);
    PlayerReleaseExactly(env, w, req.conn, id);
    ReservingKeepsRows(w1.slots, env.reserves(w1.tick));
    S.AcquireExactly(Meanwhile(env, w1), row, env.io(w1.tick), []);
    var (w2, ok) := PlayerTryAcquire(env, w1, row);
    if !ok { RestoreKeepsConns(env, w2, Rows(w, req.conn).player); }
  }

  lemma RestoreKeepsConns(env: Env, w: World, prior: Option<S.Player>)
    ensures RestorePlayer(env, w, prior).conns == w.conns
  {
  }

  /** The released slot, when nobody reserves meanwhile. */
  lemma ReleaseFreesOneSlot(env: Env, w: World, conn: nat, viewer: string)
    requires Reliable(env, w) && PlayerKept(w, conn) && forall t | t >= w.tick :: env.reserves(t) == []
    requires var prior := Rows(w, conn).player;
             prior.Some? ==>
               ActivePlayer(w, prior.value.id) && w.slots.players[prior.value.id].viewerId == prior.value.viewerId
    ensures var w1, prior := PlayerReleased(env, w, conn), Rows(w, conn).player;
            && Meanwhile(env, w1) == w1.slots
            && S.Taken(w1.slots, viewer)
               == S.Taken(w.slots, viewer) - if prior.Some? && prior.value.viewerId == viewer then 1 else 0
  {
    var prior := Rows(w, conn).player;
    if prior.Some? {
      var off := prior.value.(active := false);
      assert Meanwhile(env, w) == w.slots;
      S.RowSet(w.slots.players, off.id, S.Rewritten(w.slots.players, off.id, off)[off.id], viewer);
    }
  }

  /** Then a refused play on a connection that is playing leaves every row as active as it was. When others do reserve,
      the row can be lost: `RestorePlayerExactly` says when, and `AuthWorkerSlots.ContestedPlay` shows it. */
  lemma RefusedPlayKeepsRows(env: Env, w: World, req: Request, g: Grant, id: string)
    requires Reliable(env, w) && PlayerKept(w, req.conn) && forall t | t >= w.tick :: env.reserves(t) == []
    requires var prior := Rows(w, req.conn).player;
             prior.Some? ==>
               && ActivePlayer(w, prior.value.id) && w.slots.players[prior.value.id].viewerId == prior.value.viewerId
               && prior.value.viewerId != ""
               && S.Taken(w.slots, prior.value.viewerId) <= S.MAX_CONNECTIONS_PER_PLAY_KEY
    ensures var (w', ok) := TryPlay(env, w, req, g); !ok ==> (ActivePlayer(w', id) <==> ActivePlayer(w, id))
  {
    var row := S.Player(req.sessionId, g.streamId, g.viewerId, req.app, g.streamName, 0, 0.0, 0.0, g.at, true);
    var w1, prior := PlayerReleased(env, w, req.conn), Rows(w, req.conn).player;
    PlaySteps(env, w, req, g);
    PlayerReleaseExactly(env, w, req.conn, id);
    S.AcquireExactly(Meanwhile(env, w1), row, env.io(w1.tick), []);
    var (w2, ok) := PlayerTryAcquire(env, w1, row);
    if prior.Some? {
      PlayerReleaseExactly(env, w, req.conn, prior.value.id);
      ReleaseFreesOneSlot(env, w, req.conn, prior.value.viewerId);
      S.AcquireTakesOneSlot(w1.slots, row, env.io(w1.tick), prior.value.viewerId);
      if !ok { RestorePlayerExactly(env, w2, prior.value, id); }
    } else {
      assert Meanwhile(env, w1) == w1.slots;
    }
  }

  // ----- Writing down what the fast path has admitted

  lemma InsertExactly(env: Env, w: World, row: S.Player, id: string)
    requires row.viewerId in w.slots.reserved
    ensures var (w1, ok) := PlayerInsertReserved(env, w, row);
            && (ok <==> row.bytesOut <= I64_MAX && env.io(w.tick) && row.id !in w.slots.players)
            && (ok ==> ActivePlayer(w1, row.id)) && (!ok ==> w1.slots.players == w.slots.players)
            && (id != row.id ==> (ActivePlayer(w1, id) <==> ActivePlayer(w, id)))
            && w1 == w.(slots := w1.slots, tick := w.tick + 1)
  {
    ReservingKeepsRows(w.slots, env.reserves(w.tick));
    S.InsertReservedExactly(Meanwhile(env, w), row, env.io(w.tick));
  }

  /** The row is written, and stays active exactly while the connection still plays it; when it cannot be written the
      session is dropped and the connection closed. */
  lemma PersistPlayExactly(env: Env, w: World, conn: nat, row: S.Player, id: string)
    requires row.viewerId in w.slots.reserved
    ensures var w' := RunJob(env, w, PersistPlay(conn, row)).0;
            var stored := row.bytesOut <= I64_MAX && env.io(w.tick) && row.id !in w.slots.players;
            && (stored && HoldsPlayer(w, conn, row.id) ==>
                  ActivePlayer(w', row.id) && w'.conns == w.conns && w'.forceClose == w.forceClose)
            && (stored && !HoldsPlayer(w, conn, row.id) && env.io(w.tick + 1) ==>
                  row.id in w'.slots.players && !ActivePlayer(w', row.id))
            && (!stored ==>
                  && w'.slots.players == w.slots.players && w'.forceClose == w.forceClose + {conn}
                  && !HoldsPlayer(w', conn, row.id) && Rows(w', conn).publisher == Rows(w, conn).publisher)
            && (id != row.id ==> (ActivePlayer(w', id) <==> ActivePlayer(w, id)))
  {
    InsertExactly(env, w, row, id);
    var w1 := PlayerInsertReserved(env, w, row).0;
    OffPlayer(env, w1, row.(active := false), row.id);
    OffPlayer(env, w1, row.(active := false), id);
  }

  lemma PersistPublishExactly(env: Env, w: World, conn: nat, row: P.Publisher, id: string)
    ensures var w' := RunJob(env, w, PersistPublish(conn, row)).0;
            var stored := && row.bytesIn <= I64_MAX && env.io(w.tick) && row.id !in w.publishers
                          && forall x :: !P.ActiveOn(w.publishers, x, row.streamId);
            && (stored && HoldsPublisher(w, conn, row.id) ==>
                  ActivePublisher(w', row.id) && w'.conns == w.conns && w'.forceClose == w.forceClose)
            && (stored && !HoldsPublisher(w, conn, row.id) && env.io(w.tick + 1) ==>
                  row.id in w'.publishers && !ActivePublisher(w', row.id))
            && (!stored ==>
                  && w'.publishers == w.publishers && w'.forceClose == w.forceClose + {conn}
                  && !HoldsPublisher(w', conn, row.id) && Rows(w', conn).player == Rows(w, conn).player)
            && (id != row.id ==> (ActivePublisher(w', id) <==> ActivePublisher(w, id)))
  {
    P.AcquireExactly(w.publishers, row, env.io(w.tick));
    var (w1, ok) := PublisherTryAcquire(env, w, row);
    var off := row.(active := false);
    OffPublisher(env, w1, off, row.id);
    OffPublisher(env, w1, off, id);
    P.UpdateExactly(w1.publishers, off.id, off, env.io(w1.tick));
  }
}
