/**
 Write-behind session stats. RTMP threads queue the latest figures of a row without touching SQLite; a flush takes the
 whole queue, writes it in one transaction and puts everything back when any part fails. A full-row update drops what
 is queued for its row.

 The reference is the history of calls: what is queued for a row, and what the row holds, are read off it directly.
 */
module StatsQueue {
  import opened Basics

  datatype RowKey = PublisherRow(id: string) | PlayerRow(id: string)

  datatype Stats = Stats(bytes: nat, bitrateKbps: real, rttMs: real, media: string)

  datatype Row = Row(stats: Stats, active: bool)

  datatype Outcome = BeginFails | WriteFails(after: nat) | CommitFails | Commits

  datatype Entry = Entry(key: RowKey, stats: Stats)

  /** `Flush.during`: what RTMP threads queue while the flush runs. `Replace.admitted`: the slot checks of a full-row
      update pass. */
  datatype Event =
    | Queue(entry: Entry)
    | Flush(during: seq<Entry>, outcome: Outcome)
    | Replace(key: RowKey, stats: Stats, active: bool, admitted: bool, storage: bool)
    | Insert(key: RowKey, stats: Stats)
    | Remove(keys: set<RowKey>)
    | BeginBatch
    | EndBatch(commit: bool)

  function Lookup<V>(m: map<RowKey, V>, key: RowKey): Option<V> {
    if key in m then Some(m[key]) else None
  }

  function LastOf(entries: seq<Entry>, key: RowKey): Option<Stats>
    decreases entries
  {
    if entries == [] then None
    else
      var last := entries[|entries| - 1];
      if last.key == key then Some(last.stats) else LastOf(entries[..|entries| - 1], key)
  }

  // ----- The reference

  /** What an event leaves queued for `key` by itself. */
  function Offers(e: Event, key: RowKey): Option<Stats> {
    match e
    case Queue(entry) => if entry.key == key then Some(entry.stats) else None
    case Flush(during, _) => LastOf(during, key)
    case _ => None
  }

  /** The event settles whatever was queued for `key` before it. */
  predicate Settles(e: Event, key: RowKey) {
    match e
    case Flush(_, outcome) => outcome.Commits?
    case Replace(k, s, _, _, _) => k == key && s.bytes <= I64_MAX
    case _ => false
  }

  /** The stats waiting for `key` after `h`. */
  function Latest(h: seq<Event>, key: RowKey): Option<Stats>
    decreases h
  {
    if h == [] then None
    else
      var last, prev := h[|h| - 1], h[..|h| - 1];
      if Offers(last, key).Some? then Offers(last, key)
      else if Settles(last, key) then None
      else Latest(prev, key)
  }

  /** The stats-only UPDATE of an active row. */
  function Written(row: Option<Row>, stats: Option<Stats>): Option<Row> {
    if row.Some? && row.value.active && stats.Some? && stats.value.bytes <= I64_MAX
    then Some(row.value.(stats := stats.value)) else row
  }

  /** The row of `key` when the group commit open after `h` began, if one is open. */
  function SavedOf(h: seq<Event>, key: RowKey): Option<Option<Row>>
    decreases h
  {
    if h == [] then None
    else
      var prev := h[..|h| - 1];
      match h[|h| - 1]
      case BeginBatch => Some(RowOf(prev, key))
      case EndBatch(_) => None
      case _ => SavedOf(prev, key)
  }

  /** The row of `key` after `h`. */
  function RowOf(h: seq<Event>, key: RowKey): Option<Row>
    decreases h
  {
    if h == [] then None
    else
      var prev := h[..|h| - 1];
      match h[|h| - 1]
      case Flush(_, outcome) =>
        if outcome.Commits? then Written(RowOf(prev, key), Latest(prev, key)) else RowOf(prev, key)
      case Replace(k, s, active, admitted, storage) =>
        if k == key && s.bytes <= I64_MAX && admitted && storage && RowOf(prev, key).Some? then Some(Row(s, active))
        else RowOf(prev, key)
      case Insert(k, s) => if k == key && RowOf(prev, key).None? then Some(Row(s, true)) else RowOf(prev, key)
      case Remove(keys) => if key in keys then None else RowOf(prev, key)
      case EndBatch(commit) =>
        if !commit && SavedOf(prev, key).Some? then SavedOf(prev, key).value else RowOf(prev, key)
      case _ => RowOf(prev, key)
  }

  // ----- What the reference means

  ghost predicate QueuedLast(h: seq<Event>, key: RowKey, s: Stats, i: nat) {
    && i < |h| && Offers(h[i], key) == Some(s)
    && forall j | i < j < |h| :: Offers(h[j], key) == None && !Settles(h[j], key)
  }

  /** What is waiting was queued last, with no full-row update of the row and no committed flush since. */
  lemma {:induction false} LatestExactly(h: seq<Event>, key: RowKey, s: Stats)
    ensures Latest(h, key) == Some(s) <==> exists i :: QueuedLast(h, key, s, i)
    decreases h
  {
    if h != [] {
      var n, prev := |h| - 1, h[..|h| - 1];
      LatestExactly(prev, key, s);
      if Offers(h[n], key).Some? {
        if Latest(h, key) == Some(s) { assert QueuedLast(h, key, s, n); }
        assert forall i: nat :: QueuedLast(h, key, s, i) ==> i == n;
      } else if Settles(h[n], key) {
        assert forall i: nat :: !QueuedLast(h, key, s, i);
      } else {
        forall i: nat | QueuedLast(prev, key, s, i) ensures QueuedLast(h, key, s, i) {
          forall j | i < j < |h| ensures Offers(h[j], key) == None && !Settles(h[j], key) {
            assert j < n ==> h[j] == prev[j];
          }
        }
        forall i: nat | QueuedLast(h, key, s, i) ensures QueuedLast(prev, key, s, i) {
          assert i < n;
          forall j | i < j < |prev| ensures Offers(prev[j], key) == None && !Settles(prev[j], key) {
            assert prev[j] == h[j];
          }
        }
      }
    }
  }

  /** A flush changes a row only to the figures queued last since the row's last full-row update, and never its
      `active` flag. */
  lemma FlushWritesOnlyLatest(h: seq<Event>, during: seq<Entry>, outcome: Outcome, key: RowKey)
    ensures var before, after := RowOf(h, key), RowOf(h + [Flush(during, outcome)], key);
            after != before ==>
              && outcome.Commits? && before.Some? && after.Some? && after.value.active == before.value.active
              && exists i :: QueuedLast(h, key, after.value.stats, i)
  {
    var h' := h + [Flush(during, outcome)];
    assert h'[..|h'| - 1] == h;
    if Latest(h, key).Some? { LatestExactly(h, key, Latest(h, key).value); }
  }

  /** A flush that commits writes, to every active row, the storable figures queued last for it; every other row, and a
      row with nothing storable queued, stays as it was. What is queued while it runs stays queued. */
  lemma CommittedFlushExactly(h: seq<Event>, during: seq<Entry>, key: RowKey, s: Stats, i: nat)
    ensures var h' := h + [Flush(during, Commits)];
            && (QueuedLast(h, key, s, i) && s.bytes <= I64_MAX && RowOf(h, key).Some? && RowOf(h, key).value.active ==>
                  RowOf(h', key) == Some(Row(s, true)))
            && (QueuedLast(h, key, s, i) && s.bytes > I64_MAX ==> RowOf(h', key) == RowOf(h, key))
            && (RowOf(h, key).None? || !RowOf(h, key).value.active ==> RowOf(h', key) == RowOf(h, key))
            && (Latest(h, key).None? ==> RowOf(h', key) == RowOf(h, key))
            && Latest(h', key) == LastOf(during, key)
  {
    var h' := h + [Flush(during, Commits)];
    assert h'[..|h'| - 1] == h;
    LatestExactly(h, key, s);
  }

  function Queued(entries: seq<Entry>): seq<Event>
    decreases entries
  {
    if entries == [] then [] else Queued(entries[..|entries| - 1]) + [Queue(entries[|entries| - 1])]
  }

  /** A failed flush loses nothing: later it is as if only the queueing done meanwhile had happened. */
  lemma {:induction false} FailedFlushIsInvisible(h: seq<Event>, during: seq<Entry>, outcome: Outcome, key: RowKey)
    requires !outcome.Commits?
    ensures Latest(h + [Flush(during, outcome)], key) == Latest(h + Queued(during), key)
    ensures RowOf(h + [Flush(during, outcome)], key) == RowOf(h + Queued(during), key)
    decreases during
  {
    var h' := h + [Flush(during, outcome)];
    assert h'[..|h'| - 1] == h;
    if during == [] {
      assert h + Queued(during) == h;
    } else {
      var init, last := during[..|during| - 1], during[|during| - 1];
      var g := h + Queued(during);
      assert g[..|g| - 1] == h + Queued(init) && g[|g| - 1] == Queue(last);
      FailedFlushIsInvisible(h, init, outcome, key);
      var h0 := h + [Flush(init, outcome)];
      assert h0[..|h0| - 1] == h;
    }
  }

  // ----- Group commits that roll back

  predicate InBatch(e: Event) {
    !e.Flush? && !e.BeginBatch? && !e.EndBatch?
  }

  /** A full-row update of `key` has dropped what was queued, and nothing was queued since. */
  predicate Dropped(batch: seq<Event>, key: RowKey)
    decreases batch
  {
    batch != [] &&
    var last := batch[|batch| - 1];
    Offers(last, key).None? && (Settles(last, key) || Dropped(batch[..|batch| - 1], key))
  }

  lemma InitAppend(h: seq<Event>, batch: seq<Event>)
    requires batch != []
    ensures (h + batch)[..|h + batch| - 1] == h + batch[..|batch| - 1]
    ensures (h + batch)[|h + batch| - 1] == batch[|batch| - 1]
  {
  }

  lemma InitOne(h: seq<Event>, e: Event)
    ensures (h + [e])[..|h + [e]| - 1] == h && (h + [e])[|h + [e]| - 1] == e
  {
  }

  lemma {:induction false} BatchSaves(h: seq<Event>, batch: seq<Event>, key: RowKey)
    requires forall e | e in batch :: InBatch(e)
    ensures SavedOf(h + [BeginBatch] + batch, key) == Some(RowOf(h, key))
    decreases batch
  {
    var begun := h + [BeginBatch];
    InitOne(h, BeginBatch);
    if batch == [] {
      assert begun + batch == begun;
    } else {
      InitAppend(begun, batch);
      assert batch[|batch| - 1] in batch;
      BatchSaves(h, batch[..|batch| - 1], key);
    }
  }

  lemma {:induction false} BatchQueues(h: seq<Event>, batch: seq<Event>, key: RowKey)
    ensures Latest(h + [BeginBatch] + batch, key) == Latest(h + batch, key)
    decreases batch
  {
    var begun := h + [BeginBatch];
    InitOne(h, BeginBatch);
    if batch == [] {
      assert begun + batch == begun && h + batch == h;
    } else {
      InitAppend(begun, batch);
      InitAppend(h, batch);
      BatchQueues(h, batch[..|batch| - 1], key);
    }
  }

  lemma {:induction false} DroppedExactly(h: seq<Event>, batch: seq<Event>, key: RowKey)
    requires Latest(h, key).Some?
    ensures Latest(h + batch, key).None? <==> Dropped(batch, key)
    decreases batch
  {
    if batch == [] {
      assert h + batch == h;
    } else {
      InitAppend(h, batch);
      DroppedExactly(h, batch[..|batch| - 1], key);
    }
  }

  /** A rolled-back group puts every row back but not the queue: what was waiting for a row is lost exactly when a
      full-row update of the row ran in the group and nothing was queued for it since. */
  lemma RolledBackBatch(h: seq<Event>, batch: seq<Event>, key: RowKey)
    requires forall e | e in batch :: InBatch(e)
    ensures var h' := h + [BeginBatch] + batch + [EndBatch(false)];
            && RowOf(h', key) == RowOf(h, key)
            && (Latest(h, key).Some? ==> (Latest(h', key).None? <==> Dropped(batch, key)))
  {
    var open := h + [BeginBatch] + batch;
    InitOne(open, EndBatch(false));
    BatchSaves(h, batch, key);
    BatchQueues(h, batch, key);
    if Latest(h, key).Some? { DroppedExactly(h, batch, key); }
  }

  /** And it happens: whatever waits for a row is lost when a group that has updated the row is rolled back. */
  lemma RolledBackUpdateLosesStats(h: seq<Event>, key: RowKey, s: Stats)
    requires Latest(h, key).Some? && RowOf(h, key).Some? && s.bytes <= I64_MAX
    ensures var h' := h + [BeginBatch] + [Replace(key, s, false, true, true)] + [EndBatch(false)];
            RowOf(h', key) == RowOf(h, key) && Latest(h', key).None?
  {
    var batch := [Replace(key, s, false, true, true)];
    assert batch[|batch| - 1] == batch[0];
    RolledBackBatch(h, batch, key);
  }

  // ----- The queue and the tables

  function WriteStats(rows: map<RowKey, Row>, key: RowKey, s: Stats): map<RowKey, Row> {
    if s.bytes <= I64_MAX && key in rows && rows[key].active then rows[key := rows[key].(stats := s)] else rows
  }

  class StatsDb {
    var rows: map<RowKey, Row>
    var pending: map<RowKey, Stats>
    /** The table as the open group commit found it. */
    var saved: Option<map<RowKey, Row>>
    ghost var history: seq<Event>

    /** Queue and tables are what the history says. */
    ghost predicate Valid()
      reads this
    {
      && (forall key :: Lookup(pending, key) == Latest(history, key))
      && (forall key :: Lookup(rows, key) == RowOf(history, key))
      && (forall key :: SavedOf(history, key) == if saved.Some? then Some(Lookup(saved.value, key)) else None)
    }

    constructor ()
      ensures Valid() && history == []
    {
      rows, pending, saved, history := map[], map[], None, [];
    }

    ghost method Record(e: Event)
      modifies `history
      ensures history == old(history) + [e]
      ensures history[..|history| - 1] == old(history)
    {
      history := history + [e];
    }

    method QueueStats(entry: Entry)
      requires Valid()
      modifies `pending, `history
      ensures Valid() && history == old(history) + [Queue(entry)]
      ensures entry.key in pending && pending[entry.key] == entry.stats
      ensures pending - {entry.key} == old(pending) - {entry.key}
    {
      pending := pending[entry.key := entry.stats];
      Record(Queue(entry));
    }

    /** `publisher_update` or `player_update`. */
    method FullRowUpdate(key: RowKey, s: Stats, active: bool, admitted: bool, storage: bool) returns (ok: bool)
      requires Valid()
      modifies `rows, `pending, `history
      ensures Valid() && history == old(history) + [Replace(key, s, active, admitted, storage)]
      ensures ok <==> s.bytes <= I64_MAX && admitted && storage && key in old(rows)
      ensures ok ==> rows == old(rows)[key := Row(s, active)]
      ensures !ok ==> rows == old(rows)
      ensures pending == if s.bytes <= I64_MAX then old(pending) - {key} else old(pending)
    {
      Record(Replace(key, s, active, admitted, storage));
      if s.bytes > I64_MAX { return false; }
      pending := pending - {key};
      if !admitted { return false; }
      ok := storage && key in rows;
      if ok { rows := rows[key := Row(s, active)]; }
    }

    method InsertRow(key: RowKey, s: Stats)
      requires Valid()
      modifies `rows, `history
      ensures Valid() && history == old(history) + [Insert(key, s)]
      ensures rows == if key in old(rows) then old(rows) else old(rows)[key := Row(s, true)]
    {
      if key !in rows { rows := rows[key := Row(s, true)]; }
      Record(Insert(key, s));
    }

    method RemoveRows(keys: set<RowKey>)
      requires Valid()
      modifies `rows, `history
      ensures Valid() && history == old(history) + [Remove(keys)] && rows == old(rows) - keys
    {
      rows := rows - keys;
      Record(Remove(keys));
    }

    method BatchBegin()
      requires Valid() && saved.None?
      modifies `saved, `history
      ensures Valid() && saved.Some? && history == old(history) + [BeginBatch]
    {
      saved := Some(rows);
      Record(BeginBatch);
    }

    method BatchEnd(commit: bool)
      requires Valid() && saved.Some?
      modifies `rows, `saved, `history
      ensures Valid() && saved.None? && history == old(history) + [EndBatch(commit)]
    {
      if !commit { rows := saved.value; }
      saved := None;
      Record(EndBatch(commit));
    }

    /** Queueing by RTMP threads while the queue has been taken. */
    method QueueDuring(entries: seq<Entry>)
      requires pending == map[]
      modifies `pending
      ensures forall key :: Lookup(pending, key) == LastOf(entries, key)
    {
      for i := 0 to |entries|
        invariant forall key :: Lookup(pending, key) == LastOf(entries[..i], key)
      {
        pending := pending[entries[i].key := entries[i].stats];
        assert entries[..i + 1][..i] == entries[..i];
      }
      assert entries[..|entries|] == entries;
    }

    /** Puts drained entries back; what was queued meanwhile is newer and stays. */
    method RequeuePendingStats(drained: map<RowKey, Stats>)
      modifies `pending
      ensures forall key :: Lookup(pending, key)
                == if key in old(pending) then Some(old(pending)[key]) else Lookup(drained, key)
    {
      var todo := drained.Keys;
      while todo != {}
        invariant todo <= drained.Keys
        invariant forall key :: Lookup(pending, key)
                    == if key in old(pending) then Some(old(pending)[key])
                       else if key in todo then None else Lookup(drained, key)
        decreases todo
      {
        var key :| key in todo;
        if key !in pending { pending := pending[key := drained[key]]; }
        todo := todo - {key};
      }
    }

    /** The writes of one transaction, up to `limit` of them. */
    method WriteDrained(drained: map<RowKey, Stats>, limit: Option<nat>) returns (ok: bool)
      modifies `rows
      ensures limit.None? ==> ok
      ensures ok ==> forall key :: Lookup(rows, key) == Written(Lookup(old(rows), key), Lookup(drained, key))
    {
      var todo, n := drained.Keys, 0;
      while todo != {}
        invariant todo <= drained.Keys
        invariant forall key :: Lookup(rows, key)
                    == if key in todo then Lookup(old(rows), key)
                       else Written(Lookup(old(rows), key), Lookup(drained, key))
        decreases todo
      {
        if limit == Some(n) { return false; }
        var key :| key in todo;
        rows := WriteStats(rows, key, drained[key]);
        todo, n := todo - {key}, n + 1;
      }
      ok := true;
    }

    method FlushPendingStats(during: seq<Entry>, outcome: Outcome) returns (count: nat)
      requires Valid() && saved.None? && (outcome.WriteFails? ==> outcome.after < |pending|)
      modifies `rows, `pending, `history
      ensures Valid() && history == old(history) + [Flush(during, outcome)]
      ensures count == if outcome.Commits? then |old(pending)| else 0
    {
      var drained, before := pending, rows;
      pending := map[];
      QueueDuring(during);
      ghost var newer := pending;
      var committed := false;
      if drained != map[] && !outcome.BeginFails? {
        var wrote := WriteDrained(drained, if outcome.WriteFails? then Some(outcome.after) else None);
        committed := wrote && outcome.Commits?;
      }
      if committed {
        count := |drained|;
      } else {
        rows, count := before, 0;
        if drained != map[] && !outcome.Commits? { RequeuePendingStats(drained); }
      }
      Record(Flush(during, outcome));
      assert forall key :: Lookup(drained, key) == Latest(old(history), key);
      assert forall key :: Lookup(before, key) == RowOf(old(history), key);
    }
  }
}
