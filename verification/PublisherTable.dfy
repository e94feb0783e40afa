/**
 The `publishers` table: at most one active publisher per stream. An acquire counts the stream's active rows; an
 update counts them only when the row enters a stream, so a refresh of an active row is never checked.
 */
module PublisherTable {
  import opened Basics

  datatype Publisher = Publisher(
    id: string, streamId: string, app: string, streamName: string, media: Media, bytesIn: nat, bitrateKbps: real,
    rttMs: real, connectedAt: int, active: bool)

  datatype Media = Media(
    videoCodec: string, audioCodec: string, videoWidth: nat, videoHeight: nat, fps: real, audioSampleRate: nat,
    audioChannels: nat)

  const NO_MEDIA: Media := Media("", "", 0, 0, 0.0, 0, 0)

  type PublisherRows = map<string, Publisher>

  predicate ActiveOn(rows: PublisherRows, id: string, stream: string) {
    id in rows && rows[id].active && rows[id].streamId == stream
  }

  ghost predicate OneActivePerStream(rows: PublisherRows) {
    forall a, b, stream :: ActiveOn(rows, a, stream) && ActiveOn(rows, b, stream) ==> a == b
  }

  /** The full-row UPDATE: the id and connection time stay. */
  function Rewritten(rows: PublisherRows, id: string, p: Publisher): PublisherRows
    requires id in rows
  {
    rows[id := p.(id := id, connectedAt := rows[id].connectedAt)]
  }

  function Acquired(rows: PublisherRows, p: Publisher, storage: bool): (r: (PublisherRows, bool)) {
    if p.bytesIn > I64_MAX || (exists id | id in rows :: ActiveOn(rows, id, p.streamId)) then (rows, false)
    else if storage && p.id !in rows then (rows[p.id := p.(active := true)], true)
    else (rows, false)
  }

  function Updated(rows: PublisherRows, id: string, p: Publisher, storage: bool): (r: (PublisherRows, bool)) {
    if p.bytesIn > I64_MAX then (rows, false)
    else if p.active && !ActiveOn(rows, id, p.streamId)
            && (exists other | other in rows :: other != id && ActiveOn(rows, other, p.streamId)) then (rows, false)
    else if storage && id in rows then (Rewritten(rows, id, p), true)
    else (rows, false)
  }

  /** The stats-only UPDATE: `active`, stream and names are left alone, inactive rows are not touched. */
  function StatsWritten(rows: PublisherRows, id: string, p: Publisher): PublisherRows {
    if p.bytesIn <= I64_MAX && id in rows && rows[id].active
    then rows[id := rows[id].(media := p.media, bytesIn := p.bytesIn, bitrateKbps := p.bitrateKbps, rttMs := p.rttMs)]
    else rows
  }

  datatype Call =
    | TryAcquire(row: Publisher, storage: bool)
    | Update(id: string, row: Publisher, storage: bool)
    | WriteStats(id: string, row: Publisher)
    | DeleteRows(ids: set<string>)
    | BeginBatch
    | EndBatch(commit: bool)

  datatype Tables = Tables(rows: PublisherRows, saved: Option<PublisherRows>)

  function Step(t: Tables, c: Call): (Tables, bool) {
    match c
    case TryAcquire(p, storage) =>
      var (rows, ok) := Acquired(t.rows, p, storage);
      (t.(rows := rows), ok)
    case Update(id, p, storage) =>
      var (rows, ok) := Updated(t.rows, id, p, storage);
      (t.(rows := rows), ok)
    case WriteStats(id, p) => (t.(rows := StatsWritten(t.rows, id, p)), true)
    case DeleteRows(ids) => (t.(rows := t.rows - ids), true)
    case BeginBatch => (t.(saved := Some(t.rows)), true)
    case EndBatch(commit) => (Tables(if t.saved.Some? && !commit then t.saved.value else t.rows, None), commit)
  }

  /** The tables after all calls, and the results of all calls. */
  function Run(t: Tables, calls: seq<Call>): (Tables, seq<bool>)
    decreases calls
  {
    if calls == [] then (t, [])
    else
      var (t', ok) := Step(t, calls[0]);
      var (end, oks) := Run(t', calls[1..]);
      (end, [ok] + oks)
  }

  /** Keeps the invariant in the table and in the copy an open group commit would restore. */
  ghost predicate Safe(rows: PublisherRows, saved: Option<PublisherRows>) {
    OneActivePerStream(rows) && (saved.Some? ==> OneActivePerStream(saved.value))
  }

  lemma AcquiredKeepsOne(rows: PublisherRows, p: Publisher, storage: bool)
    requires OneActivePerStream(rows)
    ensures OneActivePerStream(Acquired(rows, p, storage).0)
    ensures Acquired(rows, p, storage).1 ==> ActiveOn(Acquired(rows, p, storage).0, p.id, p.streamId)
  {
    var (rows', _) := Acquired(rows, p, storage);
    forall a, b, stream | ActiveOn(rows', a, stream) && ActiveOn(rows', b, stream) ensures a == b {
      assert a != p.id ==> ActiveOn(rows, a, stream);
      assert b != p.id ==> ActiveOn(rows, b, stream);
    }
  }

  lemma UpdatedKeepsOne(rows: PublisherRows, id: string, p: Publisher, storage: bool)
    requires OneActivePerStream(rows)
    ensures OneActivePerStream(Updated(rows, id, p, storage).0)
  {
    var (rows', _) := Updated(rows, id, p, storage);
    forall a, b, stream | ActiveOn(rows', a, stream) && ActiveOn(rows', b, stream) ensures a == b {
      assert a != id ==> ActiveOn(rows, a, stream);
      assert b != id ==> ActiveOn(rows, b, stream);
    }
  }

  lemma StepKeepsOne(t: Tables, c: Call)
    requires Safe(t.rows, t.saved)
    ensures var t' := Step(t, c).0; Safe(t'.rows, t'.saved)
  {
    match c
    case TryAcquire(p, storage) => AcquiredKeepsOne(t.rows, p, storage);
    case Update(id, p, storage) => UpdatedKeepsOne(t.rows, id, p, storage);
    case WriteStats(id, p) =>
      assert forall x, stream :: ActiveOn(StatsWritten(t.rows, id, p), x, stream) <==> ActiveOn(t.rows, x, stream);
    case DeleteRows(ids) =>
      assert forall x, stream :: ActiveOn(t.rows - ids, x, stream) ==> ActiveOn(t.rows, x, stream);
    case _ =>
  }

  /** Every run of acquires, reactivations, stream switches, stats writes, deletions and group commits that fail or
      succeed leaves at most one active publisher on each stream. */
  lemma {:induction false} RunsKeepOne(t: Tables, calls: seq<Call>)
    requires Safe(t.rows, t.saved)
    ensures var t' := Run(t, calls).0; Safe(t'.rows, t'.saved)
    decreases calls
  {
    if calls != [] {
      StepKeepsOne(t, calls[0]);
      RunsKeepOne(Step(t, calls[0]).0, calls[1..]);
    }
  }

  // ----- What each call answers and writes

  predicate OnlyRow(rows: PublisherRows, id: string, rows': PublisherRows) {
    rows' - {id} == rows - {id}
  }

  /** An acquire succeeds exactly when nobody is active on the stream, the row can be stored and its id is new; it then
      writes that row, active, and no other. */
  lemma AcquireExactly(rows: PublisherRows, p: Publisher, storage: bool)
    ensures var (rows', ok) := Acquired(rows, p, storage);
            && (ok <==> && p.bytesIn <= I64_MAX && storage && p.id !in rows
                        && forall id :: !ActiveOn(rows, id, p.streamId))
            && (ok ==> p.id in rows' && rows'[p.id] == p.(active := true) && OnlyRow(rows, p.id, rows'))
            && (!ok ==> rows' == rows)
  {
  }

  /** A full-row update is refused exactly when the row is missing or cannot be stored, or when it brings the row onto a
      stream where another is active. It writes every field but id and connection time. */
  lemma UpdateExactly(rows: PublisherRows, id: string, p: Publisher, storage: bool)
    ensures var (rows', ok) := Updated(rows, id, p, storage);
            && (ok <==> && p.bytesIn <= I64_MAX && storage && id in rows
                        && (p.active && !ActiveOn(rows, id, p.streamId) ==>
                              forall other | other != id :: !ActiveOn(rows, other, p.streamId)))
            && (ok ==> && id in rows' && OnlyRow(rows, id, rows')
                       && rows'[id] == Publisher(id, p.streamId, p.app, p.streamName, p.media, p.bytesIn, p.bitrateKbps,
                                                 p.rttMs, rows[id].connectedAt, p.active))
            && (!ok ==> rows' == rows)
  {
  }

  /** A stats write changes the figures of an active row and nothing else of any row. */
  lemma StatsExactly(rows: PublisherRows, id: string, p: Publisher)
    ensures var rows' := StatsWritten(rows, id, p);
            if id in rows && rows[id].active && p.bytesIn <= I64_MAX
            then && id in rows' && OnlyRow(rows, id, rows')
                 && rows'[id] == Publisher(rows[id].id, rows[id].streamId, rows[id].app, rows[id].streamName, p.media,
                                           p.bytesIn, p.bitrateKbps, p.rttMs, rows[id].connectedAt, true)
            else rows' == rows
  {
  }

  class PublisherDb {
    var rows: PublisherRows
    var saved: Option<PublisherRows>

    constructor ()
      ensures Safe(rows, saved) && rows == map[] && saved == None
    {
      rows, saved := map[], None;
    }

    /** Whether the count of the stream's active rows, row `but` aside, is positive. */
    method OtherActive(stream: string, but: Option<string>) returns (found: bool)
      ensures found <==> exists id | id in rows :: Some(id) != but && ActiveOn(rows, id, stream)
    {
      var todo := rows.Keys;
      found := false;
      while todo != {}
        invariant todo <= rows.Keys
        invariant found <==> exists id | id in rows.Keys - todo :: Some(id) != but && ActiveOn(rows, id, stream)
        decreases todo
      {
        var id :| id in todo;
        found := found || (Some(id) != but && rows[id].active && rows[id].streamId == stream);
        todo := todo - {id};
      }
    }

    method PublisherTryAcquire(p: Publisher, storage: bool) returns (ok: bool)
      requires Safe(rows, saved)
      modifies `rows
      ensures Safe(rows, saved) && (rows, ok) == Acquired(old(rows), p, storage)
    {
      AcquiredKeepsOne(rows, p, storage);
      if p.bytesIn > I64_MAX { return false; }
      var taken := OtherActive(p.streamId, None);
      if taken { return false; }
      ok := storage && p.id !in rows;
      if ok { rows := rows[p.id := p.(active := true)]; }
    }

    method PublisherUpdate(id: string, p: Publisher, storage: bool) returns (ok: bool)
      requires Safe(rows, saved)
      modifies `rows
      ensures Safe(rows, saved) && (rows, ok) == Updated(old(rows), id, p, storage)
    {
      UpdatedKeepsOne(rows, id, p, storage);
      if p.bytesIn > I64_MAX { return false; }
      if p.active {
        var isTransition := !(id in rows && rows[id].active && rows[id].streamId == p.streamId);
        if isTransition {
          var taken := OtherActive(p.streamId, Some(id));
          if taken { return false; }
        }
      }
      ok := storage && id in rows;
      if ok { rows := Rewritten(rows, id, p); }
    }

    method RunCall(c: Call) returns (ok: bool)
      requires Safe(rows, saved)
      modifies this
      ensures Safe(rows, saved) && (Tables(rows, saved), ok) == Step(Tables(old(rows), old(saved)), c)
    {
      StepKeepsOne(Tables(rows, saved), c);
      match c
      case TryAcquire(p, storage) => ok := PublisherTryAcquire(p, storage);
      case Update(id, p, storage) => ok := PublisherUpdate(id, p, storage);
      case WriteStats(id, p) => rows, ok := StatsWritten(rows, id, p), true;
      case DeleteRows(ids) => rows, ok := rows - ids, true;
      case BeginBatch => saved, ok := Some(rows), true;
      case EndBatch(commit) =>
        if saved.Some? && !commit { rows := saved.value; }
        saved, ok := None, commit;
    }

    method RunCalls(calls: seq<Call>) returns (results: seq<bool>)
      requires Safe(rows, saved)
      modifies this
      ensures Safe(rows, saved) && (Tables(rows, saved), results) == Run(Tables(old(rows), old(saved)), calls)
    {
      results := [];
      assert calls[0..] == calls;
      ghost var start := Tables(rows, saved);
      for i := 0 to |calls|
        invariant Safe(rows, saved)
        invariant Run(start, calls).0 == Run(Tables(rows, saved), calls[i..]).0
        invariant Run(start, calls).1 == results + Run(Tables(rows, saved), calls[i..]).1
      {
        assert calls[i..][1..] == calls[i + 1..];
        var ok := RunCall(calls[i]);
        results := results + [ok];
      }
      assert results == results + [] == Run(start, calls).1;
    }
  }
}
