/**
 The `players` table and the per-viewer connection cap, as they would be if every admission counted rows:
 a slot is taken when the rows and reservations that occupy it are fewer than the cap. No counter is kept.
 `SlotCounters.Db` keeps the counters the server really uses and is proved to behave like this.
 */
module SessionTables {
  import opened Basics

  const MAX_CONNECTIONS_PER_PLAY_KEY: nat := 5

  datatype Player = Player(
    id: string, streamId: string, viewerId: string, app: string, streamName: string,
    bytesOut: nat, bitrateKbps: real, rttMs: real, connectedAt: int, active: bool)

  type PlayerTable = map<string, Player>

  function ActivePlayers(players: PlayerTable, viewer: string): set<string> {
    set id | id in players && players[id].active && players[id].viewerId == viewer
  }

  /** 1 when `row` occupies a slot of `viewer`, else 0. */
  function Weight(row: Player, viewer: string): nat {
    if row.active && row.viewerId == viewer then 1 else 0
  }

  /**
   `reserved`: plays admitted before their row is written, not settled yet.
   `inflight`: slots taken by the operation holding the connection, whose row write is still to come.
   `leaked`: slots of active rows deleted behind the counters' back (a stream delete cascades).
   `saved`: the table as the open group commit found it.
   */
  datatype Slots = Slots(
    players: PlayerTable, reserved: multiset<string>, inflight: multiset<string>, leaked: map<string, nat>,
    saved: Option<PlayerTable>)

  const EMPTY: Slots := Slots(map[], multiset{}, multiset{}, map[], None)

  function Taken(s: Slots, viewer: string): nat {
    |ActivePlayers(s.players, viewer)| + s.reserved[viewer] + s.inflight[viewer] + Get(s.leaked, viewer)
  }

  predicate Free(s: Slots, viewer: string) {
    Taken(s, viewer) < MAX_CONNECTIONS_PER_PLAY_KEY
  }

  // ----- What RTMP threads do without the connection lock

  datatype RtmpCall = Reserve(viewer: string) | Cancel(viewer: string)

  function Reserved(s: Slots, viewer: string): (r: (Slots, bool)) {
    if viewer != "" && Free(s, viewer) then (s.(reserved := s.reserved + multiset{viewer}), true) else (s, false)
  }

  function Cancelled(s: Slots, viewer: string): Slots {
    s.(reserved := s.reserved - multiset{viewer})
  }

  /** A thread cancels only a reservation that is still open. */
  predicate LegalRtmp(s: Slots, calls: seq<RtmpCall>)
    decreases calls
  {
    calls == [] ||
    match calls[0]
    case Reserve(v) => LegalRtmp(Reserved(s, v).0, calls[1..])
    case Cancel(v) => v in s.reserved && LegalRtmp(Cancelled(s, v), calls[1..])
  }

  function RtmpRun(s: Slots, calls: seq<RtmpCall>): Slots
    requires LegalRtmp(s, calls)
    decreases calls
  {
    if calls == [] then s
    else match calls[0]
      case Reserve(v) => RtmpRun(Reserved(s, v).0, calls[1..])
      case Cancel(v) => RtmpRun(Cancelled(s, v), calls[1..])
  }

  // ----- What runs under the connection lock

  function SlotTaken(s: Slots, viewer: string): Slots {
    s.(inflight := s.inflight + multiset{viewer})
  }

  /** The write `p` makes to row `id`: the id and connection time stay. */
  function Rewritten(players: PlayerTable, id: string, p: Player): PlayerTable
    requires id in players
  {
    players[id := p.(id := id, connectedAt := players[id].connectedAt)]
  }

  predicate Admissible(p: Player) {
    p.viewerId != "" && p.bytesOut <= I64_MAX
  }

  /** A row that is not already active for the same viewer needs a slot to become active. */
  predicate NeedsSlot(players: PlayerTable, id: string, p: Player) {
    p.active && !(id in players && players[id].active && players[id].viewerId == p.viewerId)
  }

  /**
   Calls on the database. `storage` is whether SQLite accepts the write; `between` is what RTMP threads do
   after the call has taken its slot and before it writes its row.
   */
  datatype Call =
    | Rtmp(call: RtmpCall)
    | TryAcquire(row: Player, storage: bool, between: seq<RtmpCall>)
    | InsertReserved(row: Player, storage: bool)
    | Update(id: string, row: Player, storage: bool, between: seq<RtmpCall>)
    | DeactivateViewer(viewer: string, storage: bool)
    | BeginBatch
    | EndBatch(commit: bool)
    | DeleteRows(ids: set<string>)

  predicate Legal(s: Slots, c: Call) {
    match c
    case Rtmp(call) => LegalRtmp(s, [call])
    case TryAcquire(p, _, between) =>
      Admissible(p) && Free(s, p.viewerId) ==> LegalRtmp(SlotTaken(s, p.viewerId), between)
    case InsertReserved(p, _) => p.viewerId in s.reserved
    case Update(id, p, _, between) =>
      Admissible(p) && NeedsSlot(s.players, id, p) && Free(s, p.viewerId) ==>
        LegalRtmp(SlotTaken(s, p.viewerId), between)
    case DeactivateViewer(_, _) => true
    case BeginBatch => s.saved.None?
    case EndBatch(_) => s.saved.Some?
    case DeleteRows(_) => true
  }

  function Acquired(s: Slots, p: Player, storage: bool, between: seq<RtmpCall>): (r: (Slots, bool))
    requires Legal(s, TryAcquire(p, storage, between))
  {
    if !Admissible(p) || !Free(s, p.viewerId) then (s, false)
    else
      var s' := RtmpRun(SlotTaken(s, p.viewerId), between);
      var done := s'.(inflight := s.inflight);
      if storage && p.id !in s.players
      then (done.(players := s.players[p.id := p.(active := true)]), true)
      else (done, false)
  }

  function ReservedInserted(s: Slots, p: Player, storage: bool): (r: (Slots, bool)) {
    var settled := Cancelled(s, p.viewerId);
    if p.bytesOut <= I64_MAX && storage && p.id !in s.players
    then (settled.(players := s.players[p.id := p.(active := true)]), true)
    else (settled, false)
  }

  function Updated(s: Slots, id: string, p: Player, storage: bool, between: seq<RtmpCall>): (r: (Slots, bool))
    requires Legal(s, Update(id, p, storage, between))
  {
    if p.bytesOut > I64_MAX || (p.active && p.viewerId == "") then (s, false)
    else if NeedsSlot(s.players, id, p) && !Free(s, p.viewerId) then (s, false)
    else
      var s' := if NeedsSlot(s.players, id, p)
                then RtmpRun(SlotTaken(s, p.viewerId), between).(inflight := s.inflight) else s;
      if storage && id in s.players
      then (s'.(players := Rewritten(s.players, id, p)), true)
      else (s', false)
  }

  function Deactivated(players: PlayerTable, viewer: string): PlayerTable {
    map id | id in players ::
      if players[id].viewerId == viewer then players[id].(active := false) else players[id]
  }

  function ViewerDeactivated(s: Slots, viewer: string, storage: bool): (r: (Slots, bool)) {
    if storage
    then (s.(players := Deactivated(s.players, viewer), leaked := s.leaked - {viewer}), true)
    else (s, false)
  }

  /** A rollback restores the table but not the reservations made meanwhile; it forgets leaked slots. */
  function BatchEnded(s: Slots, commit: bool): Slots {
    if commit || s.saved.None? then s.(saved := None) else s.(players := s.saved.value, leaked := map[], saved := None)
  }

  function Lost(players: PlayerTable, ids: set<string>, viewer: string): nat {
    |ActivePlayers(players, viewer) * ids|
  }

  function RowsDeleted(s: Slots, ids: set<string>): Slots {
    var viewers := s.leaked.Keys + (set id | id in s.players :: s.players[id].viewerId);
    s.(players := s.players - ids,
       leaked := map v | v in viewers :: Get(s.leaked, v) + Lost(s.players, ids, v))
  }

  function Step(s: Slots, c: Call): (r: (Slots, bool))
    requires Legal(s, c)
  {
    match c
    case Rtmp(Reserve(v)) => Reserved(s, v)
    case Rtmp(Cancel(v)) => (Cancelled(s, v), true)
    case TryAcquire(p, storage, between) => Acquired(s, p, storage, between)
    case InsertReserved(p, storage) => ReservedInserted(s, p, storage)
    case Update(id, p, storage, between) => Updated(s, id, p, storage, between)
    case DeactivateViewer(v, storage) => ViewerDeactivated(s, v, storage)
    case BeginBatch => (s.(saved := Some(s.players)), true)
    case EndBatch(commit) => (BatchEnded(s, commit), commit)
    case DeleteRows(ids) => (RowsDeleted(s, ids), true)
  }

  predicate LegalRun(s: Slots, calls: seq<Call>)
    decreases calls
  {
    calls == [] || (Legal(s, calls[0]) && LegalRun(Step(s, calls[0]).0, calls[1..]))
  }

  /** Final state and the results of all calls. */
  function Run(s: Slots, calls: seq<Call>): (r: (Slots, seq<bool>))
    requires LegalRun(s, calls)
    decreases calls
  {
    if calls == [] then (s, [])
    else
      var (s', ok) := Step(s, calls[0]);
      var (end, oks) := Run(s', calls[1..]);
      (end, [ok] + oks)
  }

  // ----- Row counts under the table operations

  lemma {:induction false} RowSet(players: PlayerTable, id: string, row: Player, viewer: string)
    ensures |ActivePlayers(players[id := row], viewer)| + (if id in players then Weight(players[id], viewer) else 0)
         == |ActivePlayers(players, viewer)| + Weight(row, viewer)
  {
    SwapCard(ActivePlayers(players, viewer), ActivePlayers(players[id := row], viewer), id);
  }

  lemma DeactivatedCounts(players: PlayerTable, viewer: string, v: string)
    ensures |ActivePlayers(Deactivated(players, viewer), v)| == if v == viewer then 0 else |ActivePlayers(players, v)|
  {
    assert ActivePlayers(Deactivated(players, viewer), v) == if v == viewer then {} else ActivePlayers(players, v);
  }

  lemma RtmpTouches(s: Slots, calls: seq<RtmpCall>)
    requires LegalRtmp(s, calls)
    ensures RtmpRun(s, calls) == s.(reserved := RtmpRun(s, calls).reserved)
    decreases calls
  {
    if calls != [] {
      match calls[0]
      case Reserve(v) => RtmpTouches(Reserved(s, v).0, calls[1..]);
      case Cancel(v) => RtmpTouches(Cancelled(s, v), calls[1..]);
    }
  }

  // ----- What each call answers and writes

  predicate OnlyRow(players: PlayerTable, id: string, players': PlayerTable) {
    players' - {id} == players - {id}
  }

  lemma ReserveExactly(s: Slots, viewer: string)
    ensures var (s', ok) := Reserved(s, viewer);
            && (ok <==> viewer != "" && Taken(s, viewer) < MAX_CONNECTIONS_PER_PLAY_KEY)
            && s'.players == s.players && (forall v :: Taken(s', v) == Taken(s, v) + if ok && v == viewer then 1 else 0)
            && s'.reserved[viewer] == s.reserved[viewer] + if ok then 1 else 0
  {
  }

  /** An acquire admits exactly while the rows and reservations of the viewer are under the cap, the row can be stored
      and its id is new; it then writes that row, active, and no other. */
  lemma AcquireExactly(s: Slots, p: Player, storage: bool, between: seq<RtmpCall>)
    requires Legal(s, TryAcquire(p, storage, between))
    ensures var (s', ok) := Step(s, TryAcquire(p, storage, between));
            && (ok <==> && p.viewerId != "" && p.bytesOut <= I64_MAX && storage && p.id !in s.players
                        && Taken(s, p.viewerId) < MAX_CONNECTIONS_PER_PLAY_KEY)
            && (ok ==> && p.id in s'.players && s'.players[p.id] == p.(active := true)
                       && OnlyRow(s.players, p.id, s'.players))
            && (!ok ==> s'.players == s.players)
            && s'.inflight == s.inflight && s'.leaked == s.leaked && s'.saved == s.saved
  {
    if Admissible(p) && Free(s, p.viewerId) { RtmpTouches(SlotTaken(s, p.viewerId), between); }
  }

  /** With nobody else at it, an acquire takes one slot when it admits and none when it does not. */
  lemma AcquireTakesOneSlot(s: Slots, p: Player, storage: bool, viewer: string)
    ensures var (s', ok) := Acquired(s, p, storage, []);
            Taken(s', viewer) == Taken(s, viewer) + if ok && viewer == p.viewerId then 1 else 0
  {
    RowSet(s.players, p.id, p.(active := true), viewer);
  }

  /** A full-row update is refused exactly when the row is missing or cannot be stored, or when it makes the row active
      for a viewer it was not active for and that viewer is at the cap. It writes every field but id and connection
      time. */
  lemma UpdateExactly(s: Slots, id: string, p: Player, storage: bool, between: seq<RtmpCall>)
    requires Legal(s, Update(id, p, storage, between))
    ensures var (s', ok) := Step(s, Update(id, p, storage, between));
            && (ok <==> && p.bytesOut <= I64_MAX && (p.active ==> p.viewerId != "") && storage && id in s.players
                        && (p.active && !(s.players[id].active && s.players[id].viewerId == p.viewerId) ==>
                              Taken(s, p.viewerId) < MAX_CONNECTIONS_PER_PLAY_KEY))
            && (ok ==> && id in s'.players && OnlyRow(s.players, id, s'.players)
                       && s'.players[id] == Player(id, p.streamId, p.viewerId, p.app, p.streamName, p.bytesOut,
                                                   p.bitrateKbps, p.rttMs, s.players[id].connectedAt, p.active))
            && (!ok ==> s'.players == s.players)
            && s'.inflight == s.inflight && s'.leaked == s.leaked && s'.saved == s.saved
  {
    if Admissible(p) && NeedsSlot(s.players, id, p) && Free(s, p.viewerId) {
      RtmpTouches(SlotTaken(s, p.viewerId), between);
    }
  }

  /** A reserved insert succeeds exactly when the row is new and can be stored; the reservation is settled either
      way. */
  lemma InsertReservedExactly(s: Slots, p: Player, storage: bool)
    requires p.viewerId in s.reserved
    ensures var (s', ok) := Step(s, InsertReserved(p, storage));
            && (ok <==> p.bytesOut <= I64_MAX && storage && p.id !in s.players)
            && (ok ==> && p.id in s'.players && s'.players[p.id] == p.(active := true)
                       && OnlyRow(s.players, p.id, s'.players))
            && (!ok ==> s'.players == s.players)
            && s'.reserved[p.viewerId] == s.reserved[p.viewerId] - 1
            && (forall v | v != p.viewerId :: s'.reserved[v] == s.reserved[v])
            && Taken(s', p.viewerId) == Taken(s, p.viewerId) - if ok then 0 else 1
  {
    RowSet(s.players, p.id, p.(active := true), p.viewerId);
  }

  /** Deactivating a viewer deactivates its rows and changes nothing else about any row. */
  lemma DeactivateExactly(s: Slots, viewer: string, id: string)
    ensures var (s', ok) := Step(s, DeactivateViewer(viewer, true));
            && ok && s'.players.Keys == s.players.Keys && s'.reserved == s.reserved
            && (id in s.players ==> s'.players[id] == s.players[id].(active := s'.players[id].active))
            && (id in s.players ==>
                  (s'.players[id].active <==> s.players[id].active && s.players[id].viewerId != viewer))
  {
  }

  lemma CancelExactly(s: Slots, viewer: string)
    requires viewer in s.reserved
    ensures var s' := Cancelled(s, viewer);
            && s'.players == s.players
            && forall v :: Taken(s', v) == Taken(s, v) - if v == viewer then 1 else 0
  {
  }

  /** Deleted rows are gone and the others untouched; every counter stays where it was. */
  lemma DeleteExactly(s: Slots, ids: set<string>, v: string)
    ensures var s' := Step(s, DeleteRows(ids)).0;
            && s'.players.Keys == s.players.Keys - ids
            && (forall id | id in s'.players :: s'.players[id] == s.players[id])
            && s'.reserved == s.reserved && Taken(s', v) == Taken(s, v)
  {
    DeletedTaken(s, ids, v);
  }

  /** A commit keeps every row, a rollback brings back the rows of the start; reservations stay either way. */
  lemma BatchEndExactly(s: Slots, commit: bool)
    requires s.saved.Some?
    ensures var (s', ok) := Step(s, EndBatch(commit));
            && ok == commit && s'.saved.None? && s'.reserved == s.reserved
            && s'.players == if commit then s.players else s.saved.value
  {
  }

  // ----- The cap

  ghost predicate Capped(s: Slots) {
    forall v :: Taken(s, v) <= MAX_CONNECTIONS_PER_PLAY_KEY
  }

  lemma {:induction false} RtmpKeepsCap(s: Slots, calls: seq<RtmpCall>)
    requires Capped(s) && LegalRtmp(s, calls)
    ensures Capped(RtmpRun(s, calls))
    decreases calls
  {
    if calls != [] {
      var s' := match calls[0] case Reserve(v) => Reserved(s, v).0 case Cancel(v) => Cancelled(s, v);
      assert Capped(s') by {
        forall v ensures Taken(s', v) <= MAX_CONNECTIONS_PER_PLAY_KEY {
          assert Taken(s, v) <= MAX_CONNECTIONS_PER_PLAY_KEY;
        }
      }
      RtmpKeepsCap(s', calls[1..]);
    }
  }

  /** Giving the slot taken for `viewer` up again, the row it was for may replace it. */
  lemma SlotSpent(s: Slots, viewer: string, between: seq<RtmpCall>, id: string, row: Player)
    requires Capped(s) && Free(s, viewer) && LegalRtmp(SlotTaken(s, viewer), between)
    requires row.viewerId == viewer
    ensures var end := RtmpRun(SlotTaken(s, viewer), between).(inflight := s.inflight);
            Capped(end) && Capped(end.(players := s.players[id := row]))
  {
    var s1 := SlotTaken(s, viewer);
    assert Capped(s1) by {
      forall v ensures Taken(s1, v) <= MAX_CONNECTIONS_PER_PLAY_KEY {
        assert Taken(s, v) <= MAX_CONNECTIONS_PER_PLAY_KEY;
      }
    }
    RtmpKeepsCap(s1, between);
    RtmpTouches(s1, between);
    var s2 := RtmpRun(s1, between);
    var end := s2.(inflight := s.inflight);
    var written := end.(players := s.players[id := row]);
    forall v
      ensures Taken(end, v) <= MAX_CONNECTIONS_PER_PLAY_KEY && Taken(written, v) <= MAX_CONNECTIONS_PER_PLAY_KEY
    {
      assert Taken(s2, v) <= MAX_CONNECTIONS_PER_PLAY_KEY;
      assert Taken(s2, v) == Taken(end, v) + if v == viewer then 1 else 0;
      RowSet(s.players, id, row, v);
    }
    assert Capped(end) && Capped(written);
  }

  lemma DeletedTaken(s: Slots, ids: set<string>, v: string)
    ensures Taken(RowsDeleted(s, ids), v) == Taken(s, v)
  {
    var all := ActivePlayers(s.players, v);
    assert ActivePlayers(s.players - ids, v) == all - ids;
    assert all == (all - ids) + (all * ids);
    forall id | id in all ensures v in RowsDeleted(s, ids).leaked {
      assert s.players[id].viewerId == v;
    }
    assert v !in RowsDeleted(s, ids).leaked ==> all == {};
  }

  lemma StepKeepsCap(s: Slots, c: Call)
    requires Capped(s) && Legal(s, c) && c != EndBatch(false)
    ensures Capped(Step(s, c).0)
  {
    var s' := Step(s, c).0;
    match c
    case Rtmp(call) =>
      RtmpKeepsCap(s, [call]);
      assert s' == RtmpRun(s', []) == RtmpRun(s, [call]);
    case TryAcquire(p, storage, between) =>
      if Admissible(p) && Free(s, p.viewerId) {
        SlotSpent(s, p.viewerId, between, p.id, p.(active := true));
      }
    case Update(id, p, storage, between) =>
      if NeedsSlot(s.players, id, p) && Admissible(p) && Free(s, p.viewerId) {
        SlotSpent(s, p.viewerId, between, id,
                  p.(id := id, connectedAt := if id in s.players then s.players[id].connectedAt else 0));
      } else {
        forall v ensures Taken(s', v) <= MAX_CONNECTIONS_PER_PLAY_KEY {
          assert Taken(s, v) <= MAX_CONNECTIONS_PER_PLAY_KEY;
          if s'.players != s.players { RowSet(s.players, id, s'.players[id], v); }
        }
      }
    case InsertReserved(p, storage) =>
      forall v ensures Taken(s', v) <= MAX_CONNECTIONS_PER_PLAY_KEY {
        assert Taken(s, v) <= MAX_CONNECTIONS_PER_PLAY_KEY;
        RowSet(s.players, p.id, p.(active := true), v);
      }
    case DeactivateViewer(viewer, storage) =>
      forall v ensures Taken(s', v) <= MAX_CONNECTIONS_PER_PLAY_KEY {
        assert Taken(s, v) <= MAX_CONNECTIONS_PER_PLAY_KEY;
        DeactivatedCounts(s.players, viewer, v);
      }
    case DeleteRows(ids) =>
      forall v ensures Taken(s', v) <= MAX_CONNECTIONS_PER_PLAY_KEY {
        assert Taken(s, v) <= MAX_CONNECTIONS_PER_PLAY_KEY;
        DeletedTaken(s, ids, v);
      }
    case _ =>
      forall v ensures Taken(s', v) <= MAX_CONNECTIONS_PER_PLAY_KEY {
        assert Taken(s, v) <= MAX_CONNECTIONS_PER_PLAY_KEY;
      }
  }

  /** While every group commit succeeds, no viewer ever holds more than the cap. */
  lemma {:induction false} CommittedRunsKeepCap(s: Slots, calls: seq<Call>)
    requires Capped(s) && LegalRun(s, calls) && EndBatch(false) !in calls
    ensures Capped(Run(s, calls).0)
    decreases calls
  {
    if calls != [] {
      StepKeepsCap(s, calls[0]);
      CommittedRunsKeepCap(Step(s, calls[0]).0, calls[1..]);
    }
  }

  // ----- Failed group commits

  /** Reservations granted to `viewer` by RTMP threads during `calls`. */
  ghost function GrantedRtmp(s: Slots, calls: seq<RtmpCall>, viewer: string): nat
    requires LegalRtmp(s, calls)
    decreases calls
  {
    if calls == [] then 0
    else match calls[0]
      case Reserve(v) =>
        (if v == viewer && Reserved(s, v).1 then 1 else 0) + GrantedRtmp(Reserved(s, v).0, calls[1..], viewer)
      case Cancel(v) => GrantedRtmp(Cancelled(s, v), calls[1..], viewer)
  }

  ghost function GrantedBy(s: Slots, c: Call, viewer: string): nat
    requires Legal(s, c)
  {
    match c
    case Rtmp(call) => GrantedRtmp(s, [call], viewer)
    case TryAcquire(p, _, between) =>
      if Admissible(p) && Free(s, p.viewerId) then GrantedRtmp(SlotTaken(s, p.viewerId), between, viewer) else 0
    case Update(id, p, _, between) =>
      if Admissible(p) && NeedsSlot(s.players, id, p) && Free(s, p.viewerId)
      then GrantedRtmp(SlotTaken(s, p.viewerId), between, viewer) else 0
    case _ => 0
  }

  ghost function Granted(s: Slots, calls: seq<Call>, viewer: string): nat
    requires LegalRun(s, calls)
    decreases calls
  {
    if calls == [] then 0
    else GrantedBy(s, calls[0], viewer) + Granted(Step(s, calls[0]).0, calls[1..], viewer)
  }

  lemma {:induction false} RtmpReservations(s: Slots, calls: seq<RtmpCall>, viewer: string)
    requires LegalRtmp(s, calls)
    ensures RtmpRun(s, calls).reserved[viewer] <= s.reserved[viewer] + GrantedRtmp(s, calls, viewer)
    decreases calls
  {
    if calls != [] {
      match calls[0]
      case Reserve(v) => RtmpReservations(Reserved(s, v).0, calls[1..], viewer);
      case Cancel(v) => RtmpReservations(Cancelled(s, v), calls[1..], viewer);
    }
  }

  /** The slot taken for a row and given up again, with what other threads reserve meanwhile. */
  lemma SlotInBatch(s: Slots, v: string, between: seq<RtmpCall>, viewer: string)
    requires LegalRtmp(SlotTaken(s, v), between)
    ensures var end := RtmpRun(SlotTaken(s, v), between);
            && end == SlotTaken(s, v).(reserved := end.reserved)
            && end.reserved[viewer] <= s.reserved[viewer] + GrantedRtmp(SlotTaken(s, v), between, viewer)
  {
    RtmpReservations(SlotTaken(s, v), between, viewer);
    RtmpTouches(SlotTaken(s, v), between);
  }

  lemma StepInBatch(s: Slots, c: Call, viewer: string)
    requires Legal(s, c) && !c.BeginBatch? && !c.EndBatch?
    ensures var s' := Step(s, c).0;
            && s'.saved == s.saved && s'.inflight == s.inflight
            && s'.reserved[viewer] <= s.reserved[viewer] + GrantedBy(s, c, viewer)
  {
    match c
    case Rtmp(call) =>
      RtmpReservations(s, [call], viewer);
      assert Step(s, c).0 == RtmpRun(Step(s, c).0, []) == RtmpRun(s, [call]);
    case TryAcquire(p, _, between) =>
      if Admissible(p) && Free(s, p.viewerId) { SlotInBatch(s, p.viewerId, between, viewer); }
    case Update(id, p, _, between) =>
      if Admissible(p) && NeedsSlot(s.players, id, p) && Free(s, p.viewerId) {
        SlotInBatch(s, p.viewerId, between, viewer);
      }
    case _ =>
  }

  lemma {:induction false} RunInBatch(s: Slots, calls: seq<Call>, viewer: string)
    requires LegalRun(s, calls) && forall c | c in calls :: !c.BeginBatch? && !c.EndBatch?
    ensures var s' := Run(s, calls).0;
            && s'.saved == s.saved && s'.inflight == s.inflight
            && s'.reserved[viewer] <= s.reserved[viewer] + Granted(s, calls, viewer)
    decreases calls
  {
    if calls != [] {
      StepInBatch(s, calls[0], viewer);
      RunInBatch(Step(s, calls[0]).0, calls[1..], viewer);
    }
  }

  /** After a failed group commit: the rows active at its start and the reservations now open, which is at most
      what was taken at the start plus what was granted meanwhile. */
  lemma FailedBatchBound(s: Slots, calls: seq<Call>, viewer: string)
    requires Legal(s, BeginBatch) && LegalRun(Step(s, BeginBatch).0, calls)
    requires forall c | c in calls :: !c.BeginBatch? && !c.EndBatch?
    ensures var open := Step(s, BeginBatch).0;
            var end := BatchEnded(Run(open, calls).0, false);
            && end.players == s.players
            && Taken(end, viewer) == |ActivePlayers(s.players, viewer)| + end.reserved[viewer] + s.inflight[viewer]
            && Taken(end, viewer) <= Taken(s, viewer) + Granted(open, calls, viewer)
  {
    RunInBatch(Step(s, BeginBatch).0, calls, viewer);
  }

  /** The bound is reached: rolling a release back after its slot was handed out again puts the viewer of row `id`
      above the cap. */
  lemma FailedBatchCanExceedCap(s: Slots, id: string)
    requires s.saved.None? && s.leaked == map[]
    requires id in s.players && s.players[id].active && Admissible(s.players[id])
    requires Taken(s, s.players[id].viewerId) == MAX_CONNECTIONS_PER_PLAY_KEY
    ensures var row := s.players[id];
            var calls := [BeginBatch, Update(id, row.(active := false), true, []), Rtmp(Reserve(row.viewerId)),
                          EndBatch(false)];
            LegalRun(s, calls) && Taken(Run(s, calls).0, row.viewerId) == MAX_CONNECTIONS_PER_PLAY_KEY + 1
  {
    var row := s.players[id];
    var c1, c2, c3 := Update(id, row.(active := false), true, []), Rtmp(Reserve(row.viewerId)), EndBatch(false);
    var s1 := Step(s, BeginBatch).0;
    var s2 := Step(s1, c1).0;
    RowSet(s.players, id, s2.players[id], row.viewerId);
    var s3 := Step(s2, c2).0;
    assert LegalRtmp(s3, []);
    RunOf(s, BeginBatch, [c1, c2, c3]);
    RunOf(s1, c1, [c2, c3]);
    RunOf(s2, c2, [c3]);
    RunOf(s3, c3, []);
    assert [BeginBatch, c1, c2, c3] == [BeginBatch] + [c1, c2, c3];
    assert [c1, c2, c3] == [c1] + [c2, c3];
    assert [c2, c3] == [c2] + [c3];
    assert [c3] == [c3] + [];
  }

  lemma RunOf(s: Slots, c: Call, rest: seq<Call>)
    requires Legal(s, c)
    ensures LegalRun(s, [c] + rest) <==> LegalRun(Step(s, c).0, rest)
    ensures LegalRun(s, [c] + rest) ==> Run(s, [c] + rest).0 == Run(Step(s, c).0, rest).0
  {
    assert ([c] + rest)[1..] == rest;
  }

  /** With no row deletion, occupancy is exactly the active rows and the open reservations. */
  lemma {:induction false} UndeletedRunsCountExactly(s: Slots, calls: seq<Call>, viewer: string)
    requires s.leaked == map[] && s.inflight == multiset{} && LegalRun(s, calls)
    requires forall c | c in calls :: !c.DeleteRows?
    ensures var s' := Run(s, calls).0;
            Taken(s', viewer) == |ActivePlayers(s'.players, viewer)| + s'.reserved[viewer]
    decreases calls
  {
    if calls != [] {
      match calls[0] {
        case TryAcquire(p, _, between) =>
          if Admissible(p) && Free(s, p.viewerId) { RtmpTouches(SlotTaken(s, p.viewerId), between); }
        case Update(id, p, _, between) =>
          if Admissible(p) && NeedsSlot(s.players, id, p) && Free(s, p.viewerId) {
            RtmpTouches(SlotTaken(s, p.viewerId), between);
          }
        case _ =>
      }
      UndeletedRunsCountExactly(Step(s, calls[0]).0, calls[1..], viewer);
    }
  }

  /** Why the worker keeps a reserved insert out of every group: rolled back, it leaves the admitted session with
      neither a row nor a slot. */
  lemma ReservedInsertRolledBackLosesSession(s: Slots, p: Player)
    requires s.saved.None? && p.viewerId in s.reserved && p.id !in s.players && p.bytesOut <= I64_MAX
    ensures var calls := [BeginBatch, InsertReserved(p, true), EndBatch(false)];
            && LegalRun(s, calls)
            && Run(s, calls).0 == Cancelled(s, p.viewerId).(leaked := map[])
  {
    var c2, c3 := InsertReserved(p, true), EndBatch(false);
    var s1 := Step(s, BeginBatch).0;
    var s2 := Step(s1, c2).0;
    RunOf(s, BeginBatch, [c2, c3]);
    RunOf(s1, c2, [c3]);
    RunOf(s2, c3, []);
    assert [BeginBatch, c2, c3] == [BeginBatch] + [c2, c3];
    assert [c2, c3] == [c2] + [c3];
    assert [c3] == [c3] + [];
  }
}
