/**
 Access keys across streams and viewers. A key used on one stream may not be used on another: a play credential must
 never publish elsewhere. A stream's default viewer shares the stream's own play key.
 */
module KeyRegistry {
  import AccessKey
  import opened KeyCache

  datatype Registry = Registry(streams: map<string, Stream>, viewers: map<string, Viewer>, pendingDelete: set<string>)

  const EMPTY: Registry := Registry(map[], map[], {})

  datatype AddResult = Added | Duplicate | ParentUnavailable | DbError

  function Keys(s: Stream): set<string> {
    {s.publishKey, s.playKey, s.statsKey}
  }

  /** The streams `key` gives access to. */
  function Holders(r: Registry, key: string): set<string> {
    (set id | id in r.streams && key in Keys(r.streams[id]))
    + (set v | v in r.viewers && r.viewers[v].playKey == key :: r.viewers[v].streamId)
  }

  /** What the startup audit counts: keys found on two or more streams. */
  ghost predicate Collides(r: Registry, key: string) {
    exists a, b :: a in Holders(r, key) && b in Holders(r, key) && a != b
  }

  ghost predicate NoCollisions(r: Registry) {
    forall key :: !Collides(r, key)
  }

  /** Rows sit under their own id, and every viewer's stream exists. */
  ghost predicate Schema(r: Registry) {
    && (forall v | v in r.viewers :: r.viewers[v].streamId in r.streams)
    && (forall id | id in r.streams :: r.streams[id].id == id)
  }

  /** `key_globally_in_use`: a key that is not a valid access key is never looked up. */
  predicate InUse(r: Registry, key: string) {
    AccessKey.IsValid(key) && Holders(r, key) != {}
  }

  predicate PlayKeyTaken(r: Registry, key: string) {
    exists v | v in r.viewers :: r.viewers[v].playKey == key
  }

  /** A UNIQUE or PRIMARY KEY violation on `streams`: each column is unique on its own. */
  predicate StreamClash(r: Registry, s: Stream) {
    s.id in r.streams ||
    exists id | id in r.streams ::
      || r.streams[id].publishKey == s.publishKey
      || r.streams[id].playKey == s.playKey
      || r.streams[id].statsKey == s.statsKey
  }

  function StreamAdded(r: Registry, s: Stream, v: Viewer, storage: bool): (Registry, AddResult) {
    if v.streamId != s.id || v.playKey != s.playKey then (r, DbError)
    else if exists k | k in Keys(s) :: InUse(r, k) then (r, Duplicate)
    else if !storage then (r, DbError)
    else if StreamClash(r, s) then (r, Duplicate)
    else if v.id in r.viewers || PlayKeyTaken(r, v.playKey) then (r, DbError)
    else (r.(streams := r.streams[s.id := s], viewers := r.viewers[v.id := v]), Added)
  }

  function ViewerAdded(r: Registry, v: Viewer, storage: bool): (Registry, AddResult) {
    var isDefault := v.streamId in r.streams && r.streams[v.streamId].playKey == v.playKey;
    if (if isDefault then PlayKeyTaken(r, v.playKey) else InUse(r, v.playKey)) then (r, Duplicate)
    else if !storage then (r, DbError)
    else if v.streamId !in r.streams || v.streamId in r.pendingDelete then (r, ParentUnavailable)
    else if v.id in r.viewers || PlayKeyTaken(r, v.playKey) then (r, Duplicate)
    else (r.(viewers := r.viewers[v.id := v]), Added)
  }

  // ----- What an accepted addition does to the holders of each key

  lemma HoldersAfterStream(r: Registry, s: Stream, v: Viewer, key: string)
    requires s.id !in r.streams && v.id !in r.viewers && v.streamId == s.id && v.playKey == s.playKey
    ensures var r' := r.(streams := r.streams[s.id := s], viewers := r.viewers[v.id := v]);
            Holders(r', key) == Holders(r, key) + if key in Keys(s) then {s.id} else {}
  {
    var r' := r.(streams := r.streams[s.id := s], viewers := r.viewers[v.id := v]);
    forall x ensures x in Holders(r', key) <==> x in Holders(r, key) + if key in Keys(s) then {s.id} else {} {
      if x in Holders(r, key) && !(x in r.streams && key in Keys(r.streams[x])) {
        var w :| w in r.viewers && r.viewers[w].playKey == key && r.viewers[w].streamId == x;
        assert r'.viewers[w] == r.viewers[w];
      }
      if key in Keys(s) && x == s.id { assert key in Keys(r'.streams[s.id]); }
    }
  }

  lemma HoldersAfterViewer(r: Registry, v: Viewer, key: string)
    requires v.id !in r.viewers
    ensures var r' := r.(viewers := r.viewers[v.id := v]);
            Holders(r', key) == Holders(r, key) + if key == v.playKey then {v.streamId} else {}
  {
    var r' := r.(viewers := r.viewers[v.id := v]);
    forall x ensures x in Holders(r', key) <==> x in Holders(r, key) + if key == v.playKey then {v.streamId} else {} {
      if x in Holders(r, key) && !(x in r.streams && key in Keys(r.streams[x])) {
        var w :| w in r.viewers && r.viewers[w].playKey == key && r.viewers[w].streamId == x;
        assert r'.viewers[w] == r.viewers[w];
      }
      if key == v.playKey && x == v.streamId { assert r'.viewers[v.id].playKey == key; }
    }
  }

  lemma UnseenStreamHoldsNothing(r: Registry, id: string, key: string)
    requires Schema(r) && id !in r.streams
    ensures id !in Holders(r, key)
  {
  }

  /** An accepted stream keeps keys on one stream each exactly when none of its keys was held before. Valid keys are
      always checked for that; a key that is not a valid access key is not. */
  lemma StreamAddedExactly(r: Registry, s: Stream, v: Viewer, storage: bool)
    requires Schema(r) && NoCollisions(r) && StreamAdded(r, s, v, storage).1 == Added
    ensures var r' := StreamAdded(r, s, v, storage).0;
            && Schema(r')
            && (NoCollisions(r') <==> forall k | k in Keys(s) :: Holders(r, k) == {})
            && forall k | k in Keys(s) && AccessKey.IsValid(k) :: Holders(r, k) == {}
  {
    var r' := StreamAdded(r, s, v, storage).0;
    forall key ensures Collides(r', key) <==> key in Keys(s) && Holders(r, key) != {} {
      HoldersAfterStream(r, s, v, key);
      UnseenStreamHoldsNothing(r, s.id, key);
      assert !Collides(r, key);
      if key in Keys(s) && Holders(r, key) != {} {
        var x :| x in Holders(r, key);
        assert x in Holders(r', key) && s.id in Holders(r', key);
      }
    }
  }

  /** An accepted viewer keeps keys on one stream each exactly when its key was held by no other stream. */
  lemma ViewerAddedExactly(r: Registry, v: Viewer, storage: bool)
    requires Schema(r) && NoCollisions(r) && ViewerAdded(r, v, storage).1 == Added
    ensures var r' := ViewerAdded(r, v, storage).0;
            && Schema(r')
            && (NoCollisions(r') <==> Holders(r, v.playKey) <= {v.streamId})
            && (AccessKey.IsValid(v.playKey) ==> Holders(r, v.playKey) <= {v.streamId})
  {
    var r' := ViewerAdded(r, v, storage).0;
    forall key ensures Collides(r', key) <==> key == v.playKey && !(Holders(r, key) <= {v.streamId}) {
      HoldersAfterViewer(r, v, key);
      assert !Collides(r, key);
      if key == v.playKey && !(Holders(r, key) <= {v.streamId}) {
        var x :| x in Holders(r, key) && x != v.streamId;
        assert x in Holders(r', key) && v.streamId in Holders(r', key);
      }
    }
    if r.streams[v.streamId].playKey == v.playKey {
      assert v.streamId in Holders(r, v.playKey);
      forall x | x in Holders(r, v.playKey) ensures x == v.streamId { assert !Collides(r, v.playKey); }
    }
  }

  /** With valid keys, a stream and its default viewer are added exactly when they belong together, storage accepts,
      both ids are new and no key of the stream is held by anyone; nothing else changes. */
  lemma ValidStreamAddedExactly(r: Registry, s: Stream, v: Viewer, storage: bool)
    requires forall k | k in Keys(s) :: AccessKey.IsValid(k)
    ensures var (r', res) := StreamAdded(r, s, v, storage);
            && (res == Added <==>
                  && v.streamId == s.id && v.playKey == s.playKey && storage
                  && s.id !in r.streams && v.id !in r.viewers && forall k | k in Keys(s) :: Holders(r, k) == {})
            && (res == Added ==>
                  && s.id in r'.streams && r'.streams[s.id] == s && r'.streams - {s.id} == r.streams
                  && v.id in r'.viewers && r'.viewers[v.id] == v && r'.viewers - {v.id} == r.viewers
                  && r'.pendingDelete == r.pendingDelete)
            && (res != Added ==> r' == r)
  {
    if s.id !in r.streams && forall k | k in Keys(s) :: Holders(r, k) == {} {
      UnheldKeysDoNotClash(r, s);
      UnheldKeyIsFree(r, s.playKey);
    }
  }

  lemma UnheldKeyIsFree(r: Registry, key: string)
    requires Holders(r, key) == {}
    ensures !PlayKeyTaken(r, key)
  {
    assert forall v | v in r.viewers :: r.viewers[v].streamId in Holders(r, r.viewers[v].playKey);
  }

  lemma UnheldKeysDoNotClash(r: Registry, s: Stream)
    requires s.id !in r.streams && forall k | k in Keys(s) :: Holders(r, k) == {}
    ensures !StreamClash(r, s)
  {
    forall id | id in r.streams ensures Keys(r.streams[id]) !! Keys(s) {
      assert forall k | k in Keys(r.streams[id]) :: id in Holders(r, k);
    }
    assert s.publishKey in Keys(s) && s.playKey in Keys(s) && s.statsKey in Keys(s);
    assert forall id | id in r.streams :: && r.streams[id].publishKey in Keys(r.streams[id])
                                          && r.streams[id].playKey in Keys(r.streams[id])
                                          && r.streams[id].statsKey in Keys(r.streams[id]);
  }

  /** With a valid key, a viewer is added exactly when storage accepts, its stream exists and is not being deleted, its
      id is new, no viewer has the key, and either nobody holds the key or it is the stream's own play key. */
  lemma ValidViewerAddedExactly(r: Registry, v: Viewer, storage: bool)
    requires AccessKey.IsValid(v.playKey)
    ensures var (r', res) := ViewerAdded(r, v, storage);
            && (res == Added <==>
                  && storage && v.streamId in r.streams && v.streamId !in r.pendingDelete && v.id !in r.viewers
                  && (forall u | u in r.viewers :: r.viewers[u].playKey != v.playKey)
                  && (Holders(r, v.playKey) == {} || r.streams[v.streamId].playKey == v.playKey))
            && (res == Added ==>
                  && v.id in r'.viewers && r'.viewers[v.id] == v && r'.viewers - {v.id} == r.viewers
                  && r'.streams == r.streams && r'.pendingDelete == r.pendingDelete)
            && (res != Added ==> r' == r)
  {
  }

  // ----- Runs

  datatype Op =
    | AddStream(stream: Stream, viewer: Viewer, storage: bool)
    | AddViewer(viewer: Viewer, storage: bool)
    | RemoveViewer(id: string)
    | RemoveStream(id: string)
    | MarkPending(id: string)

  function Removed(r: Registry, id: string): Registry {
    r.(streams := r.streams - {id}, viewers := map v | v in r.viewers && r.viewers[v].streamId != id :: r.viewers[v],
       pendingDelete := r.pendingDelete - {id})
  }

  function Apply(r: Registry, op: Op): Registry {
    match op
    case AddStream(s, v, storage) => StreamAdded(r, s, v, storage).0
    case AddViewer(v, storage) => ViewerAdded(r, v, storage).0
    case RemoveViewer(id) => r.(viewers := r.viewers - {id})
    case RemoveStream(id) => Removed(r, id)
    case MarkPending(id) => r.(pendingDelete := r.pendingDelete + {id})
  }

  /** Removing a stream takes its viewers with it, and nothing else. */
  lemma RemovedExactly(r: Registry, id: string, v: string)
    ensures var r' := Apply(r, RemoveStream(id));
            && r'.streams == r.streams - {id} && id !in r'.pendingDelete
            && (v in r'.viewers <==> v in r.viewers && r.viewers[v].streamId != id)
            && (v in r'.viewers ==> r'.viewers[v] == r.viewers[v])
  {
  }

  predicate ValidKeys(op: Op) {
    match op
    case AddStream(s, _, _) => forall k | k in Keys(s) :: AccessKey.IsValid(k)
    case AddViewer(v, _) => AccessKey.IsValid(v.playKey)
    case _ => true
  }

  function ApplyAll(r: Registry, ops: seq<Op>): Registry
    decreases ops
  {
    if ops == [] then r else ApplyAll(Apply(r, ops[0]), ops[1..])
  }

  lemma FewerHoldersNoCollisions(r: Registry, r': Registry)
    requires NoCollisions(r) && r'.streams.Items <= r.streams.Items && r'.viewers.Items <= r.viewers.Items
    ensures NoCollisions(r')
  {
    forall key ensures !Collides(r', key) {
      forall x | x in Holders(r', key) ensures x in Holders(r, key) {
        if x in r'.streams && key in Keys(r'.streams[x]) {
          assert (x, r'.streams[x]) in r.streams.Items;
        } else {
          var w :| w in r'.viewers && r'.viewers[w].playKey == key && r'.viewers[w].streamId == x;
          assert (w, r'.viewers[w]) in r.viewers.Items;
        }
      }
      assert !Collides(r, key);
    }
  }

  lemma ApplyKeepsKeys(r: Registry, op: Op)
    requires Schema(r) && NoCollisions(r) && ValidKeys(op)
    ensures Schema(Apply(r, op)) && NoCollisions(Apply(r, op))
  {
    match op
    case AddStream(s, v, storage) =>
      if StreamAdded(r, s, v, storage).1 == Added { StreamAddedExactly(r, s, v, storage); }
    case AddViewer(v, storage) =>
      if ViewerAdded(r, v, storage).1 == Added { ViewerAddedExactly(r, v, storage); }
    case _ => FewerHoldersNoCollisions(r, Apply(r, op));
  }

  /** Every run of additions with valid keys, and of any removals, keeps each key on one stream: the startup audit
      would report nothing. */
  lemma {:induction false} RunsKeepKeysApart(r: Registry, ops: seq<Op>)
    requires Schema(r) && NoCollisions(r) && forall op | op in ops :: ValidKeys(op)
    ensures Schema(ApplyAll(r, ops)) && NoCollisions(ApplyAll(r, ops))
    decreases ops
  {
    if ops != [] {
      ApplyKeepsKeys(r, ops[0]);
      RunsKeepKeysApart(Apply(r, ops[0]), ops[1..]);
    }
  }

  lemma EmptyHasNoCollisions()
    ensures Schema(EMPTY) && NoCollisions(EMPTY)
  {
    forall key ensures !Collides(EMPTY, key) { assert Holders(EMPTY, key) == {}; }
  }

  const STREAM_A := Stream("a", "", "live", "p", "q", "r", true, 0)
  const STREAM_B := Stream("b", "", "live", "x", "p", "y", true, 0)
  const VIEWER_A := Viewer("1", "a", "", "q", true, 0)
  const VIEWER_B := Viewer("2", "b", "", "p", true, 0)
  const ONLY_A := Registry(map["a" := STREAM_A], map["1" := VIEWER_A], {})
  const A_AND_B := Registry(map["a" := STREAM_A, "b" := STREAM_B], map["1" := VIEWER_A, "2" := VIEWER_B], {})

  lemma ShortKeyAccepted()
    ensures Apply(EMPTY, AddStream(STREAM_A, VIEWER_A, true)) == ONLY_A
    ensures Apply(ONLY_A, AddStream(STREAM_B, VIEWER_B, true)) == A_AND_B
  {
    assert !StreamClash(ONLY_A, STREAM_B) && !PlayKeyTaken(ONLY_A, "p");
  }

  /** Valid keys are needed: a short play key equal to another stream's publish key is accepted. */
  lemma ShortKeysCanCollide()
    ensures !NoCollisions(ApplyAll(EMPTY, [AddStream(STREAM_A, VIEWER_A, true), AddStream(STREAM_B, VIEWER_B, true)]))
  {
    var op1, op2 := AddStream(STREAM_A, VIEWER_A, true), AddStream(STREAM_B, VIEWER_B, true);
    ShortKeyAccepted();
    assert [op1, op2][1..] == [op2] && [op2][1..] == [];
    assert ApplyAll(EMPTY, [op1, op2]) == ApplyAll(ONLY_A, [op2]) == ApplyAll(A_AND_B, []) == A_AND_B;
    assert "p" in Keys(STREAM_A) && "p" in Keys(STREAM_B);
    assert "a" in Holders(A_AND_B, "p") && "b" in Holders(A_AND_B, "p");
    assert Collides(A_AND_B, "p");
  }

  class RegistryDb {
    var streams: map<string, Stream>
    var viewers: map<string, Viewer>
    var pendingDelete: set<string>

    function Abs(): Registry
      reads this
    {
      Registry(streams, viewers, pendingDelete)
    }

    constructor ()
      ensures Abs() == EMPTY
    {
      streams, viewers, pendingDelete := map[], map[], {};
    }

    /** Scans both tables for a valid key. */
    method KeyGloballyInUse(key: string) returns (used: bool)
      ensures used == InUse(Abs(), key)
    {
      if !AccessKey.IsValid(key) { return false; }
      used := false;
      var ids := streams.Keys;
      while ids != {}
        invariant ids <= streams.Keys
        invariant used <==> exists id | id in streams.Keys - ids :: key in Keys(streams[id])
        decreases ids
      {
        var id :| id in ids;
        used := used || key in Keys(streams[id]);
        ids := ids - {id};
      }
      assert used ==> exists id | id in streams :: key in Keys(streams[id]);
      var vs := viewers.Keys;
      while vs != {}
        invariant vs <= viewers.Keys
        invariant used <==> (exists id | id in streams :: key in Keys(streams[id]))
                            || exists v | v in viewers.Keys - vs :: viewers[v].playKey == key
        decreases vs
      {
        var v :| v in vs;
        used := used || viewers[v].playKey == key;
        vs := vs - {v};
      }
      if used {
        if id :| id in streams && key in Keys(streams[id]) {
          assert id in Holders(Abs(), key);
        } else {
          var v :| v in viewers && viewers[v].playKey == key;
          assert viewers[v].streamId in Holders(Abs(), key);
        }
      }
    }

    method StreamAddWithViewer(s: Stream, v: Viewer, storage: bool) returns (res: AddResult)
      modifies this
      ensures (Abs(), res) == StreamAdded(old(Abs()), s, v, storage)
    {
      if v.streamId != s.id || v.playKey != s.playKey { return DbError; }
      var keys := [s.publishKey, s.playKey, s.statsKey];
      for i := 0 to |keys|
        invariant forall j | 0 <= j < i :: !InUse(Abs(), keys[j])
        invariant Abs() == old(Abs())
      {
        var used := KeyGloballyInUse(keys[i]);
        if used {
          assert keys[i] in Keys(s);
          return Duplicate;
        }
      }
      assert !InUse(Abs(), keys[0]) && !InUse(Abs(), keys[1]) && !InUse(Abs(), keys[2]);
      if !storage { return DbError; }
      if StreamClash(Abs(), s) { return Duplicate; }
      if v.id in viewers || PlayKeyTaken(Abs(), v.playKey) { return DbError; }
      streams, viewers := streams[s.id := s], viewers[v.id := v];
      res := Added;
    }

    method ViewerAdd(v: Viewer, storage: bool) returns (res: AddResult)
      modifies this
      ensures (Abs(), res) == ViewerAdded(old(Abs()), v, storage)
    {
      if v.streamId in streams && streams[v.streamId].playKey == v.playKey {
        if PlayKeyTaken(Abs(), v.playKey) { return Duplicate; }
      } else {
        var used := KeyGloballyInUse(v.playKey);
        if used { return Duplicate; }
      }
      if !storage { return DbError; }
      if v.streamId !in streams || v.streamId in pendingDelete { return ParentUnavailable; }
      if v.id in viewers || PlayKeyTaken(Abs(), v.playKey) { return Duplicate; }
      viewers := viewers[v.id := v];
      res := Added;
    }
  }
}
