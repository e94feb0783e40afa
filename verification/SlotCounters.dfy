/**
 `Db`'s in-memory slot counters. `activePlayerCounts` stands in for counting `players` rows on every admission;
 `unpersistedPlayerCounts` holds the admissions whose row is not written yet. Every method is proved to answer and
 to change the tables as `SessionTables` says, where no counter exists.
 */
module SlotCounters {
  import opened Basics
  import opened SessionTables

  /** `decr_count`: an entry that would reach zero is removed, a missing one stays missing. */
  function DecrCount(counts: map<string, nat>, key: string): map<string, nat> {
    if key in counts then
      if counts[key] <= 1 then counts - {key} else counts[key := counts[key] - 1]
    else counts
  }

  /** The counters agree with the rows and reservations, viewer by viewer. */
  ghost predicate Agrees(counts: map<string, nat>, s: Slots) {
    forall v :: Get(counts, v) == Taken(s, v)
  }

  ghost predicate Pending(counts: map<string, nat>, reserved: multiset<string>) {
    forall v :: Get(counts, v) == reserved[v]
  }

  lemma SlotAdded(counts: map<string, nat>, counts': map<string, nat>, s: Slots, viewer: string)
    requires Agrees(counts, s)
    requires forall v :: Get(counts', v) == Get(counts, v) + if v == viewer then 1 else 0
    ensures Agrees(counts', s.(reserved := s.reserved + multiset{viewer})) && Agrees(counts', SlotTaken(s, viewer))
  {
    forall v ensures Get(counts', v) == Taken(s.(reserved := s.reserved + multiset{viewer}), v)
             ensures Get(counts', v) == Taken(SlotTaken(s, viewer), v)
    {
      assert Get(counts, v) == Taken(s, v);
    }
  }

  lemma ReservationDropped(counts: map<string, nat>, pending: map<string, nat>, s: Slots, viewer: string)
    requires Agrees(counts, s) && Pending(pending, s.reserved) && viewer in s.reserved
    ensures Agrees(DecrCount(counts, viewer), Cancelled(s, viewer))
    ensures Pending(DecrCount(pending, viewer), Cancelled(s, viewer).reserved)
  {
    var s' := Cancelled(s, viewer);
    forall v ensures Get(DecrCount(counts, viewer), v) == Taken(s', v) { assert Get(counts, v) == Taken(s, v); }
    forall v ensures Get(DecrCount(pending, viewer), v) == s'.reserved[v] { assert Get(pending, v) == s.reserved[v]; }
  }

  lemma SlotDropped(counts: map<string, nat>, s: Slots, viewer: string)
    requires Agrees(counts, s) && s.inflight == multiset{viewer}
    ensures Agrees(DecrCount(counts, viewer), s.(inflight := multiset{}))
  {
    var s' := s.(inflight := multiset{});
    forall v ensures Get(DecrCount(counts, viewer), v) == Taken(s', v) { assert Get(counts, v) == Taken(s, v); }
  }

  /** A new active row takes over the slot held for it, in flight or reserved. */
  lemma SlotFilled(counts: map<string, nat>, s: Slots, p: Player)
    requires Agrees(counts, s) && p.id !in s.players && p.active && s.inflight == multiset{p.viewerId}
    ensures Agrees(counts, s.(players := s.players[p.id := p], inflight := multiset{}))
  {
    var filled := s.(players := s.players[p.id := p], inflight := multiset{});
    forall v ensures Get(counts, v) == Taken(filled, v) {
      assert Get(counts, v) == Taken(s, v);
      RowSet(s.players, p.id, p, v);
    }
  }

  lemma ReservationFilled(counts: map<string, nat>, s: Slots, p: Player)
    requires Agrees(counts, s) && p.id !in s.players && p.active && p.viewerId in s.reserved
    ensures Agrees(counts, Cancelled(s, p.viewerId).(players := s.players[p.id := p]))
  {
    var filled := Cancelled(s, p.viewerId).(players := s.players[p.id := p]);
    forall v ensures Get(counts, v) == Taken(filled, v) {
      assert Get(counts, v) == Taken(s, v);
      RowSet(s.players, p.id, p, v);
    }
  }

  /** Rewriting a row releases the slot its old version held unless the new version keeps it. */
  lemma RowRewritten(counts: map<string, nat>, s: Slots, id: string, row: Player)
    requires Agrees(counts, s) && id in s.players
    requires s.inflight == if NeedsSlot(s.players, id, row) then multiset{row.viewerId} else multiset{}
    ensures var was := s.players[id];
            var counts' := if was.active && (!row.active || was.viewerId != row.viewerId)
                           then DecrCount(counts, was.viewerId) else counts;
            Agrees(counts', s.(players := s.players[id := row], inflight := multiset{}))
  {
    var was := s.players[id];
    var counts' := if was.active && (!row.active || was.viewerId != row.viewerId)
                   then DecrCount(counts, was.viewerId) else counts;
    var written := s.(players := s.players[id := row], inflight := multiset{});
    forall v ensures Get(counts', v) == Taken(written, v) {
      assert Get(counts, v) == Taken(s, v);
      RowSet(s.players, id, row, v);
      if was.active && v == was.viewerId { ActiveIsCounted(s.players, id); }
    }
  }

  lemma ActiveIsCounted(players: PlayerTable, id: string)
    requires id in players && players[id].active
    ensures |ActivePlayers(players, players[id].viewerId)| > 0
  {
    assert id in ActivePlayers(players, players[id].viewerId);
  }

  lemma PendingAdded(counts: map<string, nat>, reserved: multiset<string>, viewer: string)
    requires Pending(counts, reserved)
    ensures Pending(counts[viewer := Get(counts, viewer) + 1], reserved + multiset{viewer})
  {
    forall v ensures Get(counts[viewer := Get(counts, viewer) + 1], v) == (reserved + multiset{viewer})[v] {
      assert Get(counts, v) == reserved[v];
    }
  }

  lemma SavedIrrelevant(counts: map<string, nat>, s: Slots, saved: Option<PlayerTable>)
    requires Agrees(counts, s)
    ensures Agrees(counts, s.(saved := saved))
  {
    forall v ensures Get(counts, v) == Taken(s.(saved := saved), v) { assert Get(counts, v) == Taken(s, v); }
  }

  lemma ViewerCleared(counts: map<string, nat>, s: Slots, viewer: string)
    requires Agrees(counts, s) && s.inflight == multiset{}
    ensures Agrees(if s.reserved[viewer] == 0 then counts - {viewer} else counts[viewer := s.reserved[viewer]],
                   ViewerDeactivated(s, viewer, true).0)
  {
    var counts' := if s.reserved[viewer] == 0 then counts - {viewer} else counts[viewer := s.reserved[viewer]];
    forall v ensures Get(counts', v) == Taken(ViewerDeactivated(s, viewer, true).0, v) {
      assert Get(counts, v) == Taken(s, v);
      DeactivatedCounts(s.players, viewer, v);
    }
  }

  // ----- Stages of rebuilding the counters from the table

  ghost predicate CountedBut(counts: map<string, nat>, players: PlayerTable, done: set<string>) {
    forall v :: Get(counts, v) == if v in done then |ActivePlayers(players, v)| else 0
  }

  ghost predicate WithPendingBut(counts: map<string, nat>, pending: map<string, nat>, players: PlayerTable,
                                 todo: set<string>)
  {
    forall v :: Get(counts, v) == |ActivePlayers(players, v)| + if v in todo then 0 else Get(pending, v)
  }

  lemma CountedAll(counts: map<string, nat>, players: PlayerTable, viewers: set<string>)
    requires CountedBut(counts, players, viewers)
    requires viewers == set id | id in players && players[id].active :: players[id].viewerId
    ensures forall v :: Get(counts, v) == |ActivePlayers(players, v)|
  {
    forall v ensures Get(counts, v) == |ActivePlayers(players, v)| {
      if v !in viewers {
        assert ActivePlayers(players, v) == {};
      }
    }
  }

  lemma Rebuilt(counts: map<string, nat>, pending: map<string, nat>, s: Slots)
    requires WithPendingBut(counts, pending, s.players, {}) && Pending(pending, s.reserved)
    requires s.inflight == multiset{} && s.leaked == map[]
    ensures Agrees(counts, s)
  {
    forall v ensures Get(counts, v) == Taken(s, v) { assert Get(pending, v) == s.reserved[v]; }
  }

  /** The active rows of each viewer, counted row group by row group. */
  method CountByViewer(players: PlayerTable) returns (counts: map<string, nat>)
    ensures forall v :: Get(counts, v) == |ActivePlayers(players, v)|
  {
    counts := map[];
    var viewers := set id | id in players && players[id].active :: players[id].viewerId;
    var todo := viewers;
    while todo != {}
      invariant CountedBut(counts, players, viewers - todo)
      invariant todo <= viewers
      decreases todo
    {
      var v :| v in todo;
      assert viewers - (todo - {v}) == (viewers - todo) + {v};
      counts := counts[v := |ActivePlayers(players, v)|];
      todo := todo - {v};
    }
    assert viewers - todo == viewers;
    CountedAll(counts, players, viewers);
  }

  /** The unpersisted admissions added, viewer by viewer. */
  method AddPending(ghost players: PlayerTable, counted: map<string, nat>, pending: map<string, nat>)
    returns (counts: map<string, nat>)
    requires forall v :: Get(counted, v) == |ActivePlayers(players, v)|
    ensures WithPendingBut(counts, pending, players, {})
  {
    counts := counted;
    var todo := pending.Keys;
    while todo != {}
      invariant todo <= pending.Keys
      invariant WithPendingBut(counts, pending, players, todo)
      decreases todo
    {
      var v :| v in todo;
      counts := counts[v := Get(counts, v) + pending[v]];
      todo := todo - {v};
    }
  }

  class Db {
    var players: PlayerTable
    var activePlayerCounts: map<string, nat>
    var unpersistedPlayerCounts: map<string, nat>
    var saved: Option<PlayerTable>
    /** What the counters stand for. */
    ghost var slots: Slots

    ghost predicate Valid()
      reads this
    {
      && slots.players == players && slots.saved == saved
      && Agrees(activePlayerCounts, slots)
      && Pending(unpersistedPlayerCounts, slots.reserved)
    }

    /** No operation is between taking a slot and writing its row. */
    ghost predicate Idle()
      reads this
    {
      Valid() && slots.inflight == multiset{}
    }

    constructor ()
      ensures Idle() && slots == EMPTY
    {
      players, saved := map[], None;
      activePlayerCounts, unpersistedPlayerCounts := map[], map[];
      slots := EMPTY;
      new;
      forall v ensures Taken(EMPTY, v) == 0 { assert ActivePlayers(map[], v) == {}; }
    }

    /** Takes a slot if fewer than the cap are counted. */
    method TryIncrCount(viewer: string) returns (ok: bool)
      requires Valid()
      modifies `activePlayerCounts
      ensures ok == Free(slots, viewer)
      ensures ok ==> Agrees(activePlayerCounts, SlotTaken(slots, viewer))
      ensures ok ==> Agrees(activePlayerCounts, slots.(reserved := slots.reserved + multiset{viewer}))
      ensures !ok ==> activePlayerCounts == old(activePlayerCounts)
    {
      var count := Get(activePlayerCounts, viewer);
      if count >= MAX_CONNECTIONS_PER_PLAY_KEY { return false; }
      SlotAdded(activePlayerCounts, activePlayerCounts[viewer := count + 1], slots, viewer);
      activePlayerCounts := activePlayerCounts[viewer := count + 1];
      ok := true;
    }

    method PlayerReserve(viewer: string) returns (ok: bool)
      requires Valid()
      modifies `activePlayerCounts, `unpersistedPlayerCounts, `slots
      ensures Valid() && (slots, ok) == Reserved(old(slots), viewer)
    {
      if viewer == "" { return false; }
      ok := TryIncrCount(viewer);
      if !ok { return; }
      PendingAdded(unpersistedPlayerCounts, slots.reserved, viewer);
      unpersistedPlayerCounts := unpersistedPlayerCounts[viewer := Get(unpersistedPlayerCounts, viewer) + 1];
      slots := slots.(reserved := slots.reserved + multiset{viewer});
    }

    method PlayerCancelReservation(viewer: string)
      requires Valid() && viewer in slots.reserved
      modifies `activePlayerCounts, `unpersistedPlayerCounts, `slots
      ensures Valid() && slots == Cancelled(old(slots), viewer)
    {
      ReservationDropped(activePlayerCounts, unpersistedPlayerCounts, slots, viewer);
      unpersistedPlayerCounts := DecrCount(unpersistedPlayerCounts, viewer);
      activePlayerCounts := DecrCount(activePlayerCounts, viewer);
      slots := Cancelled(slots, viewer);
    }

    /** What RTMP threads do in a gap of another operation. */
    method RtmpThreads(calls: seq<RtmpCall>)
      requires Valid() && LegalRtmp(slots, calls)
      modifies `activePlayerCounts, `unpersistedPlayerCounts, `slots
      ensures Valid() && slots == RtmpRun(old(slots), calls)
    {
      for i := 0 to |calls|
        invariant Valid() && LegalRtmp(slots, calls[i..])
        invariant RtmpRun(slots, calls[i..]) == RtmpRun(old(slots), calls)
      {
        assert calls[i..][1..] == calls[i + 1..];
        match calls[i]
        case Reserve(v) => var _ := PlayerReserve(v);
        case Cancel(v) => PlayerCancelReservation(v);
      }
    }

    /** Takes a slot under the connection lock; RTMP threads run before its row is written. */
    method TakeSlot(viewer: string, between: seq<RtmpCall>) returns (ok: bool)
      requires Idle() && (Free(slots, viewer) ==> LegalRtmp(SlotTaken(slots, viewer), between))
      modifies `activePlayerCounts, `unpersistedPlayerCounts, `slots
      ensures Valid() && ok == Free(old(slots), viewer)
      ensures ok ==> slots == RtmpRun(SlotTaken(old(slots), viewer), between)
      ensures ok ==> slots == old(slots).(reserved := slots.reserved, inflight := multiset{viewer})
      ensures !ok ==> slots == old(slots)
    {
      ok := TryIncrCount(viewer);
      if ok {
        slots := SlotTaken(slots, viewer);
        RtmpTouches(slots, between);
        RtmpThreads(between);
      }
    }

    /** Writes the row for the slot in flight, or gives the slot back. */
    method InsertActivePlayer(p: Player, storage: bool) returns (inserted: bool)
      requires Valid() && slots.inflight == multiset{p.viewerId}
      modifies `players, `activePlayerCounts, `slots
      ensures Idle() && inserted == (storage && p.id !in old(players))
      ensures slots == old(slots).(players := players, inflight := multiset{})
      ensures players == if inserted then old(players)[p.id := p.(active := true)] else old(players)
    {
      inserted := storage && p.id !in players;
      if inserted {
        SlotFilled(activePlayerCounts, slots, p.(active := true));
        players := players[p.id := p.(active := true)];
      } else {
        SlotDropped(activePlayerCounts, slots, p.viewerId);
        activePlayerCounts := DecrCount(activePlayerCounts, p.viewerId);
      }
      slots := slots.(players := players, inflight := multiset{});
    }

    method PlayerTryAcquire(p: Player, storage: bool, between: seq<RtmpCall>) returns (inserted: bool)
      requires Idle() && Legal(slots, TryAcquire(p, storage, between))
      modifies this
      ensures Idle() && (slots, inserted) == Acquired(old(slots), p, storage, between)
    {
      if p.viewerId == "" { return false; }
      if p.bytesOut > I64_MAX { return false; }
      var ok := TakeSlot(p.viewerId, between);
      if !ok { return false; }
      inserted := InsertActivePlayer(p, storage);
    }

    /** The row takes over the slot reserved for it. */
    method FillReservation(p: Player)
      requires Valid() && p.viewerId in slots.reserved && p.id !in players && p.active
      modifies `players, `unpersistedPlayerCounts, `slots
      ensures Valid() && slots == Cancelled(old(slots), p.viewerId).(players := old(players)[p.id := p])
    {
      ReservationDropped(activePlayerCounts, unpersistedPlayerCounts, slots, p.viewerId);
      ReservationFilled(activePlayerCounts, slots, p);
      unpersistedPlayerCounts := DecrCount(unpersistedPlayerCounts, p.viewerId);
      players := players[p.id := p];
      slots := Cancelled(slots, p.viewerId).(players := players);
    }

    /** Settles the reservation either way: its row is written, or both counters give it back. */
    method PlayerInsertReserved(p: Player, storage: bool) returns (inserted: bool)
      requires Valid() && p.viewerId in slots.reserved
      modifies `players, `activePlayerCounts, `unpersistedPlayerCounts, `slots
      ensures Valid() && (slots, inserted) == ReservedInserted(old(slots), p, storage)
    {
      inserted := p.bytesOut <= I64_MAX && storage && p.id !in players;
      if inserted {
        FillReservation(p.(active := true));
      } else {
        PlayerCancelReservation(p.viewerId);
      }
    }

    /** Rewrites row `id`, releasing the slot of an active row that leaves its viewer, or the slot in flight when no
        row was written. */
    method WriteRow(id: string, p: Player, storage: bool) returns (updated: bool)
      requires Valid()
      requires slots.inflight == if NeedsSlot(players, id, p) then multiset{p.viewerId} else multiset{}
      modifies `players, `activePlayerCounts, `slots
      ensures Idle() && updated == (storage && id in old(players))
      ensures slots == old(slots).(players := players, inflight := multiset{})
      ensures players == if updated then Rewritten(old(players), id, p) else old(players)
    {
      updated := storage && id in players;
      if updated {
        var was := players[id];
        RowRewritten(activePlayerCounts, slots, id, Rewritten(players, id, p)[id]);
        players := Rewritten(players, id, p);
        if was.active && (!p.active || was.viewerId != p.viewerId) {
          activePlayerCounts := DecrCount(activePlayerCounts, was.viewerId);
        }
      } else if NeedsSlot(players, id, p) {
        SlotDropped(activePlayerCounts, slots, p.viewerId);
        activePlayerCounts := DecrCount(activePlayerCounts, p.viewerId);
      }
      slots := slots.(players := players, inflight := multiset{});
    }

    method PlayerUpdate(id: string, p: Player, storage: bool, between: seq<RtmpCall>) returns (updated: bool)
      requires Idle() && Legal(slots, Update(id, p, storage, between))
      modifies this
      ensures Idle() && (slots, updated) == Updated(old(slots), id, p, storage, between)
    {
      if p.bytesOut > I64_MAX { return false; }
      if p.active && p.viewerId == "" { return false; }
      if NeedsSlot(players, id, p) {
        var ok := TakeSlot(p.viewerId, between);
        if !ok { return false; }
      }
      updated := WriteRow(id, p, storage);
    }

    method PlayersDeactivateForViewer(viewer: string, storage: bool) returns (ok: bool)
      requires Idle()
      modifies `players, `activePlayerCounts, `slots
      ensures Idle() && (slots, ok) == ViewerDeactivated(old(slots), viewer, storage)
    {
      ok := storage;
      if ok {
        players := Deactivated(players, viewer);
        var pending := Get(unpersistedPlayerCounts, viewer);
        ViewerCleared(activePlayerCounts, slots, viewer);
        if pending == 0 {
          activePlayerCounts := activePlayerCounts - {viewer};
        } else {
          activePlayerCounts := activePlayerCounts[viewer := pending];
        }
        slots := ViewerDeactivated(slots, viewer, true).0;
      }
    }

    method BatchBegin()
      requires Idle() && saved.None?
      modifies `saved, `slots
      ensures Idle() && slots == Step(old(slots), BeginBatch).0
    {
      saved := Some(players);
      SavedIrrelevant(activePlayerCounts, slots, saved);
      slots := slots.(saved := saved);
    }

    /** The end of `batch`: on a failed commit the table rolls back and the counters are rebuilt. */
    method BatchEnd(commit: bool)
      requires Idle() && saved.Some?
      modifies `players, `saved, `activePlayerCounts, `slots
      ensures Idle() && slots == BatchEnded(old(slots), commit)
    {
      if commit {
        SavedIrrelevant(activePlayerCounts, slots, None);
        saved, slots := None, slots.(saved := None);
      } else {
        players, saved := saved.value, None;
        slots := BatchEnded(slots, false);
        ResyncActivePlayerCounts();
      }
    }

    method ResyncActivePlayerCounts()
      requires slots.players == players && slots.saved == saved && slots.inflight == multiset{} && slots.leaked == map[]
      requires Pending(unpersistedPlayerCounts, slots.reserved)
      modifies `activePlayerCounts
      ensures Valid()
    {
      var counted := CountByViewer(players);
      var counts := AddPending(players, counted, unpersistedPlayerCounts);
      Rebuilt(counts, unpersistedPlayerCounts, slots);
      activePlayerCounts := counts;
    }

    /** Rows leave the table without the counters being told, as a cascading stream delete does. */
    method DeletePlayerRows(ids: set<string>)
      requires Idle()
      modifies `players, `slots
      ensures Idle() && slots == RowsDeleted(old(slots), ids)
    {
      forall v ensures Taken(RowsDeleted(slots, ids), v) == Taken(slots, v) { DeletedTaken(slots, ids, v); }
      players := players - ids;
      slots := RowsDeleted(slots, ids);
    }

    method RunCall(c: Call) returns (ok: bool)
      requires Idle() && Legal(slots, c)
      modifies this
      ensures Idle() && (slots, ok) == Step(old(slots), c)
    {
      match c
      case Rtmp(Reserve(v)) => ok := PlayerReserve(v);
      case Rtmp(Cancel(v)) => PlayerCancelReservation(v); ok := true;
      case TryAcquire(p, storage, between) => ok := PlayerTryAcquire(p, storage, between);
      case InsertReserved(p, storage) => ok := PlayerInsertReserved(p, storage);
      case Update(id, p, storage, between) => ok := PlayerUpdate(id, p, storage, between);
      case DeactivateViewer(v, storage) => ok := PlayersDeactivateForViewer(v, storage);
      case BeginBatch => BatchBegin(); ok := true;
      case EndBatch(commit) => BatchEnd(commit); ok := commit;
      case DeleteRows(ids) => DeletePlayerRows(ids); ok := true;
    }

    /** Every run of calls: same answers and same tables as counting rows, and the counters still agree. */
    method RunCalls(calls: seq<Call>) returns (results: seq<bool>)
      requires Idle() && LegalRun(slots, calls)
      modifies this
      ensures Idle() && (slots, results) == SessionTables.Run(old(slots), calls)
    {
      results := [];
      assert calls[0..] == calls;
      for i := 0 to |calls|
        invariant Idle() && LegalRun(slots, calls[i..])
        invariant SessionTables.Run(old(slots), calls).0 == SessionTables.Run(slots, calls[i..]).0
        invariant SessionTables.Run(old(slots), calls).1 == results + SessionTables.Run(slots, calls[i..]).1
      {
        assert calls[i..][1..] == calls[i + 1..];
        var ok := RunCall(calls[i]);
        results := results + [ok];
      }
      assert results == results + [] == SessionTables.Run(old(slots), calls).1;
    }
  }
}
