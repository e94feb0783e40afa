/**
 The access-key snapshot. It is rebuilt off the reply path and answers a play or publish only while its generation
 equals a counter that every row write bumps. Readers of the snapshot hold no database lock, any number of refreshes
 run at once, and a rollback undoes writes without touching the counter.
 */
module KeyCache {
  import opened Basics
  import AccessKey

  datatype Stream = Stream(
    id: string, name: string, app: string, publishKey: string, playKey: string, statsKey: string, enabled: bool,
    createdAt: int)

  datatype Viewer = Viewer(id: string, streamId: string, name: string, playKey: string, enabled: bool, createdAt: int)

  datatype Tables = Tables(streams: map<string, Stream>, viewers: map<string, Viewer>)

  /** What the schema enforces: unique publish keys, unique viewer play keys, no viewer without its stream. */
  ghost predicate WellFormed(t: Tables) {
    && (forall a, b | a in t.streams && b in t.streams && t.streams[a].publishKey == t.streams[b].publishKey :: a == b)
    && (forall a, b | a in t.viewers && b in t.viewers && t.viewers[a].playKey == t.viewers[b].playKey :: a == b)
    && (forall v | v in t.viewers :: t.viewers[v].streamId in t.streams)
  }

  predicate PlaysWith(t: Tables, viewer: string, key: string) {
    viewer in t.viewers && t.viewers[viewer].enabled && t.viewers[viewer].playKey == key
    && t.viewers[viewer].streamId in t.streams
  }

  predicate PublishesWith(t: Tables, stream: string, key: string) {
    stream in t.streams && t.streams[stream].enabled && t.streams[stream].publishKey == key
  }

  function Pair(t: Tables, viewer: string): (Viewer, Stream)
    requires viewer in t.viewers && t.viewers[viewer].streamId in t.streams
  {
    (t.viewers[viewer], t.streams[t.viewers[viewer].streamId])
  }

  /** `viewer_and_stream_by_play_key`. */
  ghost function DirectPlay(t: Tables, key: string): Option<(Viewer, Stream)> {
    if AccessKey.IsValid(key) && exists v :: PlaysWith(t, v, key)
    then var v :| PlaysWith(t, v, key); Some(Pair(t, v))
    else None
  }

  /** `stream_find_by_publish_key`. */
  ghost function DirectPublish(t: Tables, key: string): Option<Stream> {
    if AccessKey.IsValid(key) && exists s :: PublishesWith(t, s, key)
    then var s :| PublishesWith(t, s, key); Some(t.streams[s])
    else None
  }

  /** A valid play key answers with the enabled viewer that has it, and that viewer's stream, or not at all. */
  lemma DirectPlayExactly(t: Tables, key: string, v: Viewer, s: Stream)
    requires WellFormed(t) && AccessKey.IsValid(key)
    ensures DirectPlay(t, key) == Some((v, s)) <==>
              exists id :: && id in t.viewers && t.viewers[id] == v && v.enabled && v.playKey == key
                           && v.streamId in t.streams && t.streams[v.streamId] == s
  {
    if id :| && id in t.viewers && t.viewers[id] == v && v.enabled && v.playKey == key
             && v.streamId in t.streams && t.streams[v.streamId] == s
    {
      assert PlaysWith(t, id, key);
    }
  }

  /** A valid publish key answers with the enabled stream that has it. */
  lemma DirectPublishExactly(t: Tables, key: string, s: Stream)
    requires WellFormed(t) && AccessKey.IsValid(key)
    ensures DirectPublish(t, key) == Some(s) <==>
              exists id :: id in t.streams && t.streams[id] == s && s.enabled && s.publishKey == key
  {
    if id :| id in t.streams && t.streams[id] == s && s.enabled && s.publishKey == key {
      assert PublishesWith(t, id, key);
    }
  }

  datatype KeySnapshot = KeySnapshot(
    generation: Option<nat>, play: map<string, (Viewer, Stream)>, publish: map<string, Stream>)

  /** The snapshot's maps are the two queries over `t`. */
  ghost predicate Mirrors(snap: KeySnapshot, t: Tables) {
    && (forall k :: k in snap.play <==> exists v :: PlaysWith(t, v, k))
    && (forall v, k | PlaysWith(t, v, k) :: k in snap.play && snap.play[k] == Pair(t, v))
    && (forall k :: k in snap.publish <==> exists s :: PublishesWith(t, s, k))
    && (forall s, k | PublishesWith(t, s, k) :: k in snap.publish && snap.publish[k] == t.streams[s])
  }

  lemma MirrorAnswersDirectly(snap: KeySnapshot, t: Tables, key: string)
    requires Mirrors(snap, t) && AccessKey.IsValid(key)
    ensures DirectPlay(t, key) == if key in snap.play then Some(snap.play[key]) else None
    ensures DirectPublish(t, key) == if key in snap.publish then Some(snap.publish[key]) else None
  {
    if key in snap.play {
      var v :| PlaysWith(t, v, key);
    }
    if key in snap.publish {
      var s :| PublishesWith(t, s, key);
    }
  }

  /** Loads the play keys of all enabled viewers, row by row. */
  method LoadPlay(t: Tables) returns (play: map<string, (Viewer, Stream)>)
    requires WellFormed(t)
    ensures forall k :: k in play <==> exists v :: PlaysWith(t, v, k)
    ensures forall v, k | PlaysWith(t, v, k) :: k in play && play[k] == Pair(t, v)
  {
    play := map[];
    var todo := t.viewers.Keys;
    while todo != {}
      invariant todo <= t.viewers.Keys
      invariant forall k | k in play :: exists v :: v !in todo && PlaysWith(t, v, k)
      invariant forall v, k | v !in todo && PlaysWith(t, v, k) :: k in play && play[k] == Pair(t, v)
      decreases todo
    {
      var v :| v in todo;
      if t.viewers[v].enabled {
        assert PlaysWith(t, v, t.viewers[v].playKey);
        play := play[t.viewers[v].playKey := Pair(t, v)];
      }
      todo := todo - {v};
    }
  }

  /** Loads the publish keys of all enabled streams, row by row. */
  method LoadPublish(t: Tables) returns (publish: map<string, Stream>)
    requires WellFormed(t)
    ensures forall k :: k in publish <==> exists s :: PublishesWith(t, s, k)
    ensures forall s, k | PublishesWith(t, s, k) :: k in publish && publish[k] == t.streams[s]
  {
    publish := map[];
    var todo := t.streams.Keys;
    while todo != {}
      invariant todo <= t.streams.Keys
      invariant forall k | k in publish :: exists s :: s !in todo && PublishesWith(t, s, k)
      invariant forall s, k | s !in todo && PublishesWith(t, s, k) :: k in publish && publish[k] == t.streams[s]
      decreases todo
    {
      var s :| s in todo;
      if t.streams[s].enabled {
        assert PublishesWith(t, s, t.streams[s].publishKey);
        publish := publish[t.streams[s].publishKey := t.streams[s]];
      }
      todo := todo - {s};
    }
  }

  /** Who holds the connection: nobody, a transaction with its nested savepoints, or a raw access. */
  datatype Lock = Free | Tx(saved: seq<Tables>) | Raw

  /** One atomic action of one thread. A `Write` changes rows in any way the schema allows, bumping the counter once
      per row; `RawWrite` does so unseen by the update hook. */
  datatype Step =
    | Write(tables: Tables, rows: nat)
    | Begin | Commit | Rollback
    | RawBegin | RawWrite(tables: Tables) | RawEnd
    | RefreshRead(thread: nat) | RefreshInstall(thread: nat)

  /** A snapshot of the current generation shows the tables as they are, and as any rollback would leave them. */
  ghost predicate Sound(snap: KeySnapshot, t: Tables, generation: nat, lock: Lock) {
    snap.generation.Some? ==>
      && snap.generation.value <= generation
      && (snap.generation.value == generation ==>
            && Mirrors(snap, t) && !lock.Raw?
            && (lock.Tx? ==> forall i | 0 <= i < |lock.saved| :: lock.saved[i] == t))
  }

  /** `loaded`: what each refresh has read and not yet installed. */
  datatype State = State(
    tables: Tables, generation: nat, snapshot: KeySnapshot, lock: Lock, loaded: map<nat, KeySnapshot>)

  const NO_SNAPSHOT: KeySnapshot := KeySnapshot(None, map[], map[])

  ghost predicate Init(s: State) {
    WellFormed(s.tables) && s.snapshot == NO_SNAPSHOT && s.lock == Free && s.loaded == map[]
  }

  /** The step can be taken: locks are free as needed, and what is written obeys the schema. */
  ghost predicate Enabled(s: State, step: Step) {
    match step
    case Write(t, rows) => rows > 0 && WellFormed(t)
    case Begin => !s.lock.Raw?
    case Commit | Rollback => s.lock.Tx? && |s.lock.saved| > 0
    case RawBegin => s.lock.Free?
    case RawWrite(t) => s.lock.Raw? && WellFormed(t)
    case RawEnd => s.lock.Raw?
    case RefreshRead(_) => s.lock.Free?
    case RefreshInstall(r) => r in s.loaded
  }

  function Closed(saved: seq<Tables>): Lock {
    if |saved| <= 1 then Free else Tx(saved[..|saved| - 1])
  }

  ghost predicate Next(s: State, step: Step, s': State)
    requires Enabled(s, step)
  {
    match step
    case Write(t, rows) => s' == s.(tables := t, generation := s.generation + rows)
    case Begin => s' == s.(lock := Tx((if s.lock.Tx? then s.lock.saved else []) + [s.tables]))
    case Commit => s' == s.(lock := Closed(s.lock.saved))
    case Rollback => s' == s.(tables := s.lock.saved[|s.lock.saved| - 1], lock := Closed(s.lock.saved))
    case RawBegin => s' == s.(lock := Raw, generation := s.generation + 1)
    case RawWrite(t) => s' == s.(tables := t)
    case RawEnd => s' == s.(lock := Free)
    case RefreshRead(r) =>
      && r in s'.loaded && s' == s.(loaded := s.loaded[r := s'.loaded[r]])
      && s'.loaded[r].generation == Some(s.generation) && Mirrors(s'.loaded[r], s.tables)
    case RefreshInstall(r) => s' == s.(snapshot := s.loaded[r], loaded := s.loaded - {r})
  }

  ghost predicate Inv(s: State) {
    && WellFormed(s.tables)
    && (s.lock.Tx? ==> |s.lock.saved| > 0 && forall i | 0 <= i < |s.lock.saved| :: WellFormed(s.lock.saved[i]))
    && Sound(s.snapshot, s.tables, s.generation, s.lock)
    && (forall r | r in s.loaded :: Sound(s.loaded[r], s.tables, s.generation, s.lock))
  }

  /** Whatever one thread does, an up-to-date snapshot stays right, wherever it was read and however late it lands. */
  lemma SoundStep(s: State, step: Step, s': State, snap: KeySnapshot)
    requires Inv(s) && Enabled(s, step) && Next(s, step, s')
    requires Sound(snap, s.tables, s.generation, s.lock)
    ensures Sound(snap, s'.tables, s'.generation, s'.lock)
  {
    if step.Commit? || step.Rollback? {
      assert s'.lock.Tx? ==> forall i | 0 <= i < |s'.lock.saved| :: s'.lock.saved[i] == s.lock.saved[i];
    }
  }

  lemma NextKeepsInv(s: State, step: Step, s': State)
    requires Inv(s) && Enabled(s, step) && Next(s, step, s')
    ensures Inv(s')
  {
    SoundStep(s, step, s', s.snapshot);
    forall r | r in s'.loaded ensures Sound(s'.loaded[r], s'.tables, s'.generation, s'.lock) {
      if r in s.loaded && !(step.RefreshRead? && step.thread == r) { SoundStep(s, step, s', s.loaded[r]); }
    }
    if step.RefreshInstall? { SoundStep(s, step, s', s.loaded[step.thread]); }
  }

  /** A run: `states[i + 1]` follows `states[i]` by `steps[i]`. */
  ghost predicate IsRun(states: seq<State>, steps: seq<Step>) {
    && |states| == |steps| + 1 && Init(states[0])
    && forall i | 0 <= i < |steps| :: Enabled(states[i], steps[i]) && Next(states[i], steps[i], states[i + 1])
  }

  lemma {:induction false} RunKeepsInv(states: seq<State>, steps: seq<Step>, n: nat)
    requires IsRun(states, steps) && n < |states|
    ensures Inv(states[n])
    decreases n
  {
    if n > 0 {
      RunKeepsInv(states, steps, n - 1);
      NextKeepsInv(states[n - 1], steps[n - 1], states[n]);
    }
  }

  function PlayHit(s: State, key: string): Option<(Viewer, Stream)> {
    if s.snapshot.generation == Some(s.generation) && key in s.snapshot.play then Some(s.snapshot.play[key]) else None
  }

  function PublishHit(s: State, key: string): Option<Stream> {
    if s.snapshot.generation == Some(s.generation) && key in s.snapshot.publish
    then Some(s.snapshot.publish[key]) else None
  }

  /** In every interleaving of writes, transactions, rollbacks, raw accesses and any number of refreshes, at every
      moment, a hit on a valid key is exactly what the query would return; with a current snapshot so is a miss. */
  lemma HitsAreCurrent(states: seq<State>, steps: seq<Step>, n: nat, key: string)
    requires IsRun(states, steps) && n < |states| && AccessKey.IsValid(key)
    ensures var s := states[n];
            && (PlayHit(s, key).Some? || s.snapshot.generation == Some(s.generation) ==>
                  PlayHit(s, key) == DirectPlay(s.tables, key))
            && (PublishHit(s, key).Some? || s.snapshot.generation == Some(s.generation) ==>
                  PublishHit(s, key) == DirectPublish(s.tables, key))
  {
    RunKeepsInv(states, steps, n);
    if states[n].snapshot.generation == Some(states[n].generation) {
      MirrorAnswersDirectly(states[n].snapshot, states[n].tables, key);
    }
  }

  /** A refresh nobody interrupts makes both lookups answer from the snapshot as the queries would, hits and misses. */
  lemma UndisturbedRefreshServes(s: State, r: nat, s1: State, s2: State, key: string)
    requires Inv(s) && s.lock.Free? && AccessKey.IsValid(key)
    requires Next(s, RefreshRead(r), s1) && r in s1.loaded && Next(s1, RefreshInstall(r), s2)
    ensures s2.tables == s.tables && s2.generation == s.generation && s2.loaded == s.loaded - {r}
    ensures PlayHit(s2, key) == DirectPlay(s.tables, key) && PublishHit(s2, key) == DirectPublish(s.tables, key)
  {
    MirrorAnswersDirectly(s2.snapshot, s.tables, key);
  }

  /** From a write or a raw access on, the snapshot answers nothing until the next refresh. */
  lemma WritesSilenceTheSnapshot(s: State, step: Step, s': State, key: string)
    requires Inv(s) && (step.Write? || step.RawBegin?) && Enabled(s, step) && Next(s, step, s')
    ensures PlayHit(s', key).None? && PublishHit(s', key).None?
  {
  }

  /** Why a refresh reads only outside transactions: a snapshot of uncommitted rows outlives their rollback. */
  lemma ReadInsideTransactionGoesStale(s: State, s': State, key: string)
    requires s.lock.Tx? && |s.lock.saved| > 0 && PlayHit(s, key).Some?
    requires DirectPlay(s.lock.saved[|s.lock.saved| - 1], key) == None && Next(s, Rollback, s')
    ensures PlayHit(s', key) != DirectPlay(s'.tables, key)
  {
    assert PlayHit(s', key) == PlayHit(s, key);
  }

  class KeyDb {
    var tables: Tables
    var generation: nat
    var snapshot: KeySnapshot
    var lock: Lock
    var loaded: map<nat, KeySnapshot>

    ghost function Abs(): State
      reads this
    {
      State(tables, generation, snapshot, lock, loaded)
    }

    constructor (tables: Tables)
      requires WellFormed(tables)
      ensures Init(Abs()) && Inv(Abs()) && this.tables == tables
    {
      this.tables, generation, lock := tables, 0, Free;
      snapshot, loaded := NO_SNAPSHOT, map[];
    }

    method TakeStep(step: Step)
      requires Inv(Abs()) && Enabled(Abs(), step)
      modifies this
      ensures Next(old(Abs()), step, Abs()) && Inv(Abs())
    {
      match step {
        case Write(t, rows) => tables, generation := t, generation + rows;
        case Begin => lock := Tx((if lock.Tx? then lock.saved else []) + [tables]);
        case Commit => lock := Closed(lock.saved);
        case Rollback => tables, lock := lock.saved[|lock.saved| - 1], Closed(lock.saved);
        case RawBegin => lock, generation := Raw, generation + 1;
        case RawWrite(t) => tables := t;
        case RawEnd => lock := Free;
        case RefreshRead(r) =>
          var play := LoadPlay(tables);
          var publish := LoadPublish(tables);
          loaded := loaded[r := KeySnapshot(Some(generation), play, publish)];
        case RefreshInstall(r) => snapshot, loaded := loaded[r], loaded - {r};
      }
      NextKeepsInv(old(Abs()), step, Abs());
    }

    method CachedPlayKey(key: string) returns (hit: Option<(Viewer, Stream)>)
      requires Inv(Abs())
      ensures hit.Some? && AccessKey.IsValid(key) ==> hit == DirectPlay(tables, key)
      ensures snapshot.generation == Some(generation) && AccessKey.IsValid(key) ==> hit == DirectPlay(tables, key)
    {
      if snapshot.generation != Some(generation) { return None; }
      hit := if key in snapshot.play then Some(snapshot.play[key]) else None;
      if AccessKey.IsValid(key) { MirrorAnswersDirectly(snapshot, tables, key); }
    }

    method CachedPublishKey(key: string) returns (hit: Option<Stream>)
      requires Inv(Abs())
      ensures hit.Some? && AccessKey.IsValid(key) ==> hit == DirectPublish(tables, key)
      ensures snapshot.generation == Some(generation) && AccessKey.IsValid(key) ==> hit == DirectPublish(tables, key)
    {
      if snapshot.generation != Some(generation) { return None; }
      hit := if key in snapshot.publish then Some(snapshot.publish[key]) else None;
      if AccessKey.IsValid(key) { MirrorAnswersDirectly(snapshot, tables, key); }
    }
  }
}
