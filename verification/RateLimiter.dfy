/**
 The sliding-window limiter: per client key, a pruned list of recent admissions, in a map of bounded size that evicts.
 It is proved against the full admission history of each key since the key's last eviction, which is never pruned.
 */
module RateLimiter {
  import opened Basics

  const MAX_TRACKED_KEYS: nat := 10_000

  const USIZE_MAX: nat := 0xFFFF_FFFF_FFFF_FFFF

  datatype Config = Config(window: nat, apiMax: nat, statsMax: nat, defaultMax: nat)

  /** The budgets of one client; `/stats` and `/stats-nginx` have one each. */
  datatype Budget = Api | Public | Stats | StatsNginx | Hls | Default

  datatype Key = Key(budget: Budget, client: nat)

  function Cap(config: Config, key: Key): nat {
    match key.budget
    case Api => config.apiMax
    case Stats | StatsNginx => config.statsMax
    case Public | Default => config.defaultMax
    case Hls =>
      if config.defaultMax == 0 then 0
      else if config.defaultMax * 10 > USIZE_MAX then USIZE_MAX
      else if config.defaultMax * 10 < 600 then 600
      else config.defaultMax * 10
  }

  /** `bucket_for`. */
  function BudgetFor(path: string, authenticated: bool): Budget {
    if "/api/" <= path then if authenticated then Api else Public
    else if path == "/stats" then Stats
    else if path == "/stats-nginx" then StatsNginx
    else if "/hls/" <= path then Hls
    else Default
  }

  /** The API budget is drawn on by authenticated API requests and by nothing else; the two stats paths have budgets of
      their own, which no other path touches. */
  lemma BudgetsAreApart(path: string, authenticated: bool)
    ensures BudgetFor(path, authenticated) == Api <==> authenticated && |path| >= 5 && path[..5] == "/api/"
    ensures BudgetFor(path, authenticated) == Stats <==> path == "/stats"
    ensures BudgetFor(path, authenticated) == StatsNginx <==> path == "/stats-nginx"
  {
    assert "/api/" <= path <==> |path| >= 5 && path[..5] == "/api/";
    assert "/stats"[1] == 's' && "/stats-nginx"[1] == 's' && "/api/"[1] == 'a' && |"/stats"| == 6;
  }

  /** The caps under the default configuration, and the rule for HLS: none when the default is zero, else at least
      600. */
  lemma CapsByDefault(client: nat, d: nat)
    ensures var config := Config(60_000, 120, 30, 60);
            && Cap(config, Key(Api, client)) == 120
            && Cap(config, Key(Stats, client)) == Cap(config, Key(StatsNginx, client)) == 30
            && Cap(config, Key(Public, client)) == Cap(config, Key(Default, client)) == 60
            && Cap(config, Key(Hls, client)) == 600
    ensures var hls := Cap(Config(60_000, 120, 30, d), Key(Hls, client));
            (d == 0 <==> hls == 0) && (d > 0 ==> hls >= 600) && (60 <= d <= USIZE_MAX / 10 ==> hls == 10 * d)
  {
  }

  datatype Bucket = Bucket(entries: seq<int>, maxRequests: nat)

  predicate InWindow(window: nat, now: int, timestamp: int) {
    now < timestamp || now - timestamp < window
  }

  /** `entries.retain(in window)`. */
  function Kept(window: nat, entries: seq<int>, now: int): seq<int> {
    if entries == [] then []
    else
      var n := |entries| - 1;
      Kept(window, entries[..n], now) + if InWindow(window, now, entries[n]) then [entries[n]] else []
  }

  lemma {:induction false} KeptLater(window: nat, entries: seq<int>, now: int, later: int)
    requires now <= later
    ensures Kept(window, Kept(window, entries, now), later) == Kept(window, entries, later)
  {
    if entries != [] {
      var n := |entries| - 1;
      KeptLater(window, entries[..n], now, later);
      var kept := Kept(window, entries, now);
      if InWindow(window, now, entries[n]) {
        assert kept[..|kept| - 1] == Kept(window, entries[..n], now);
      } else {
        assert kept == Kept(window, entries[..n], now);
      }
    }
  }

  /** Agreeing on what is in the window now means agreeing later. */
  lemma KeptAgree(window: nat, a: seq<int>, b: seq<int>, now: int, later: int)
    requires now <= later && Kept(window, a, now) == Kept(window, b, now)
    ensures Kept(window, a, later) == Kept(window, b, later)
  {
    KeptLater(window, a, now, later);
    KeptLater(window, b, now, later);
  }

  // ----- Full histories

  /** Admission times in order, none later than `clock`. */
  ghost predicate Ordered(h: seq<int>, clock: int) {
    && (forall i, j | 0 <= i <= j < |h| :: h[i] <= h[j])
    && (forall i | 0 <= i < |h| :: h[i] <= clock)
  }

  /** `max` admissions later, at least a window has passed. */
  ghost predicate Spaced(window: nat, h: seq<int>, max: nat) {
    forall i, j | 0 <= i && i + max <= j < |h| :: h[j] - h[i] >= window
  }

  /** Both, admission by admission. */
  ghost predicate Sane(window: nat, cap: nat, h: seq<int>, clock: int)
    decreases h
  {
    h == [] ||
    var n := |h| - 1;
    h[n] <= clock && Sane(window, cap, h[..n], h[n]) && (n >= cap ==> h[n] - h[n - cap] >= window)
  }

  lemma {:induction false} SaneIsOrdered(window: nat, cap: nat, h: seq<int>, clock: int)
    requires Sane(window, cap, h, clock)
    ensures Ordered(h, clock)
    decreases h
  {
    if h != [] {
      var n := |h| - 1;
      SaneIsOrdered(window, cap, h[..n], h[n]);
      assert forall i | 0 <= i < n :: h[..n][i] == h[i];
    }
  }

  lemma {:induction false} SaneIsSpaced(window: nat, cap: nat, h: seq<int>, clock: int)
    requires Sane(window, cap, h, clock)
    ensures Spaced(window, h, cap)
    decreases h
  {
    if h != [] {
      var n := |h| - 1;
      SaneIsSpaced(window, cap, h[..n], h[n]);
      SaneIsOrdered(window, cap, h, clock);
      forall i, j | 0 <= i && i + cap <= j < |h| ensures h[j] - h[i] >= window {
        if j == n { assert h[i] <= h[n - cap]; } else { assert h[..n][j] - h[..n][i] >= window; }
      }
    }
  }

  /** The kept part of an ordered history is its tail. */
  lemma {:induction false} KeptIsTail(window: nat, h: seq<int>, now: int, i: nat)
    requires Ordered(h, now) && i < |h|
    ensures InWindow(window, now, h[i]) ==> |Kept(window, h, now)| >= |h| - i
    ensures !InWindow(window, now, h[i]) ==> |Kept(window, h, now)| <= |h| - i - 1
    decreases h
  {
    var n := |h| - 1;
    assert Ordered(h[..n], now);
    if i < n {
      KeptIsTail(window, h[..n], now, i);
    } else if !InWindow(window, now, h[n]) {
      KeptOfOld(window, h, now);
    }
  }

  lemma {:induction false} KeptOfOld(window: nat, h: seq<int>, now: int)
    requires forall i | 0 <= i < |h| :: !InWindow(window, now, h[i])
    ensures Kept(window, h, now) == []
    decreases h
  {
    if h != [] { KeptOfOld(window, h[..|h| - 1], now); }
  }

  ghost function Younger(h: seq<int>, window: nat, now: int): set<nat> {
    set i: nat | i < |h| && now - h[i] < window
  }

  /** What is kept of an ordered history is as many admissions as are younger than the window. */
  lemma {:induction false} KeptCountsYounger(window: nat, h: seq<int>, now: int)
    requires Ordered(h, now)
    ensures |Kept(window, h, now)| == |Younger(h, window, now)|
    decreases h
  {
    if h == [] {
      assert Younger(h, window, now) == {};
    } else {
      var n := |h| - 1;
      KeptCountsYounger(window, h[..n], now);
      var last: nat := n;
      var rest := Younger(h[..n], window, now);
      assert last !in rest;
      assert Younger(h, window, now) == if now - h[n] < window then rest + {last} else rest;
    }
  }

  lemma AdmissionKeepsSpacing(window: nat, h: seq<int>, cap: nat, now: int)
    requires Sane(window, cap, h, now) && |Kept(window, h, now)| < cap
    ensures Sane(window, cap, h + [now], now)
  {
    SaneIsOrdered(window, cap, h, now);
    assert (h + [now])[..|h|] == h;
    if |h| >= cap { KeptIsTail(window, h, now, |h| - cap); }
  }

  ghost function Within(h: seq<int>, from: int, to: int): set<nat> {
    set i: nat | i < |h| && from <= h[i] < to
  }

  lemma IntervalCard(s: set<nat>, lo: nat, n: nat)
    requires forall x | x in s :: lo <= x < lo + n
    ensures |s| <= n
    decreases n
  {
    if n > 0 {
      IntervalCard(s - {lo + n - 1}, lo, n - 1);
      assert s <= (s - {lo + n - 1}) + {lo + n - 1};
      SubsetCard(s, (s - {lo + n - 1}) + {lo + n - 1});
    } else {
      assert s == {};
    }
  }

  lemma Least(s: set<nat>) returns (m: nat)
    requires s != {}
    ensures m in s && forall x | x in s :: m <= x
    decreases s
  {
    var x :| x in s;
    if s == {x} {
      m := x;
    } else {
      var k := Least(s - {x});
      assert forall y | y in s :: y == x || y in s - {x};
      m := if k < x then k else x;
    }
  }

  /** A spaced history has at most `max` admissions in any window, wherever the window starts. */
  lemma WindowsAreCapped(window: nat, h: seq<int>, max: nat, clock: int, from: int)
    requires Sane(window, max, h, clock)
    ensures |Within(h, from, from + window)| <= max
  {
    SaneIsOrdered(window, max, h, clock);
    SaneIsSpaced(window, max, h, clock);
    var s := Within(h, from, from + window);
    if s != {} {
      var lo := Least(s);
      assert forall x | x in s :: h[x] - h[lo] < window;
      IntervalCard(s, lo, max);
    }
  }

  // ----- The limiter

  type History = map<Key, seq<int>>

  function Of(admitted: History, key: Key): seq<int> {
    if key in admitted then admitted[key] else []
  }

  function Count(window: nat, admitted: History, key: Key, now: int): nat {
    |Kept(window, Of(admitted, key), now)|
  }

  /** An evicted key's history starts over. */
  function StartedOver(admitted: History, evicted: Option<Key>): History {
    if evicted.Some? then admitted[evicted.value := []] else admitted
  }

  function Noted(admitted: History, key: Key, now: int): History {
    admitted[key := Of(admitted, key) + [now]]
  }

  /** A key can be given up when it is below its own cap. */
  ghost predicate SomeEligible(config: Config, keys: set<Key>, admitted: History, now: int) {
    exists k | k in keys :: Count(config.window, admitted, k, now) < Cap(config, k)
  }

  /** A bucket under cap `cap` against the full history of its key. */
  ghost predicate Tracks(window: nat, cap: nat, b: Bucket, h: seq<int>, now: int) {
    b.maxRequests == cap > 0 && b.entries != [] && Kept(window, b.entries, now) == Kept(window, h, now)
  }

  ghost predicate Expired(window: nat, h: seq<int>, now: int) {
    Kept(window, h, now) == []
  }

  /** The pruned map against the full histories, key by key. */
  ghost predicate Refines(config: Config, buckets: map<Key, Bucket>, admitted: History, now: int) {
    && (forall k | k in buckets :: Tracks(config.window, Cap(config, k), buckets[k], Of(admitted, k), now))
    && (forall k | k !in buckets :: Expired(config.window, Of(admitted, k), now))
  }

  ghost predicate Histories(config: Config, admitted: History, clock: int) {
    forall k :: Sane(config.window, Cap(config, k), Of(admitted, k), clock)
  }

  lemma SaneLater(window: nat, cap: nat, h: seq<int>, now: int, later: int)
    requires now <= later && Sane(window, cap, h, now)
    ensures Sane(window, cap, h, later)
  {
  }

  lemma RefinesLater(config: Config, buckets: map<Key, Bucket>, admitted: History, now: int, later: int)
    requires now <= later && Refines(config, buckets, admitted, now) && Histories(config, admitted, now)
    ensures Refines(config, buckets, admitted, later) && Histories(config, admitted, later)
  {
    forall k | k in buckets ensures Tracks(config.window, Cap(config, k), buckets[k], Of(admitted, k), later) {
      assert Tracks(config.window, Cap(config, k), buckets[k], Of(admitted, k), now);
      KeptAgree(config.window, buckets[k].entries, Of(admitted, k), now, later);
    }
    forall k | k !in buckets ensures Expired(config.window, Of(admitted, k), later) {
      assert Expired(config.window, Of(admitted, k), now);
      KeptLater(config.window, Of(admitted, k), now, later);
    }
    forall k ensures Sane(config.window, Cap(config, k), Of(admitted, k), later) {
      SaneLater(config.window, Cap(config, k), Of(admitted, k), now, later);
    }
  }

  /** A tracked key that may be evicted: below its own cap. */
  predicate Eligible(window: nat, b: Bucket, now: int) {
    |Kept(window, b.entries, now)| < b.maxRequests
  }

  function Last(b: Bucket): int
    requires b.entries != []
  {
    b.entries[|b.entries| - 1]
  }

  function Pruned(window: nat, b: Bucket, now: int): Bucket {
    b.(entries := Kept(window, b.entries, now))
  }

  /** Every bucket pruned, and those whose window has passed entirely dropped. */
  ghost function Purged(window: nat, buckets: map<Key, Bucket>, now: int): map<Key, Bucket> {
    map k | k in buckets && Kept(window, buckets[k].entries, now) != [] :: Pruned(window, buckets[k], now)
  }

  ghost predicate NonEmpty(buckets: map<Key, Bucket>) {
    forall k | k in buckets :: buckets[k].entries != []
  }

  /** `victim` is an eligible key with the oldest last admission, or no key is eligible. */
  ghost predicate Oldest(window: nat, buckets: map<Key, Bucket>, victim: Option<Key>, now: int)
    requires NonEmpty(buckets)
  {
    match victim
    case None => forall k | k in buckets :: !Eligible(window, buckets[k], now)
    case Some(v) =>
      && v in buckets && Eligible(window, buckets[v], now)
      && forall k | k in buckets && Eligible(window, buckets[k], now) :: Last(buckets[v]) <= Last(buckets[k])
  }

  method Retain(window: nat, entries: seq<int>, now: int) returns (kept: seq<int>)
    ensures kept == Kept(window, entries, now)
  {
    kept := [];
    for i := 0 to |entries|
      invariant kept == Kept(window, entries[..i], now)
    {
      assert entries[..i + 1][..i] == entries[..i];
      if InWindow(window, now, entries[i]) { kept := kept + [entries[i]]; }
    }
    assert entries[..|entries|] == entries;
  }

  method PurgeExpired(window: nat, buckets: map<Key, Bucket>, now: int) returns (live: map<Key, Bucket>)
    ensures live == Purged(window, buckets, now)
  {
    live := map[];
    var todo := buckets.Keys;
    while todo != {}
      invariant todo <= buckets.Keys
      invariant live.Keys == set k | k in buckets && k !in todo && Kept(window, buckets[k].entries, now) != []
      invariant forall k | k in live :: live[k] == Pruned(window, buckets[k], now)
      decreases todo
    {
      var k :| k in todo;
      var kept := Retain(window, buckets[k].entries, now);
      if kept != [] { live := live[k := buckets[k].(entries := kept)]; }
      todo := todo - {k};
    }
  }

  method OldestEligible(window: nat, buckets: map<Key, Bucket>, now: int) returns (victim: Option<Key>)
    requires NonEmpty(buckets)
    ensures Oldest(window, buckets, victim, now)
  {
    victim := None;
    var todo := buckets.Keys;
    while todo != {}
      invariant todo <= buckets.Keys
      invariant victim.None? ==> forall k | k in buckets && k !in todo :: !Eligible(window, buckets[k], now)
      invariant victim.Some? ==> victim.value in buckets && Eligible(window, buckets[victim.value], now)
      invariant victim.Some? ==> forall k | k in buckets && k !in todo && Eligible(window, buckets[k], now) ::
                                   Last(buckets[victim.value]) <= Last(buckets[k])
      decreases todo
    {
      var k :| k in todo;
      var kept := Retain(window, buckets[k].entries, now);
      if |kept| < buckets[k].maxRequests && (victim.None? || Last(buckets[k]) < Last(buckets[victim.value])) {
        victim := Some(k);
      }
      todo := todo - {k};
    }
  }

  // ----- How each change of the map keeps the refinement

  /** A bucket keeps tracking its history when it is pruned. */
  lemma PrunedTracks(window: nat, cap: nat, b: Bucket, h: seq<int>, now: int)
    requires Tracks(window, cap, b, h, now)
    ensures Kept(window, b.entries, now) != [] ==> Tracks(window, cap, Pruned(window, b, now), h, now)
    ensures Kept(window, b.entries, now) == [] ==> Expired(window, h, now)
    ensures Eligible(window, b, now) <==> |Kept(window, h, now)| < cap
  {
    KeptLater(window, b.entries, now, now);
  }

  lemma PushedTracks(window: nat, cap: nat, entries: seq<int>, h: seq<int>, now: int)
    requires Kept(window, entries, now) == Kept(window, h, now) && cap > 0
    ensures Tracks(window, cap, Bucket(entries + [now], cap), h + [now], now)
  {
    assert (entries + [now])[..|entries|] == entries && (h + [now])[..|h|] == h;
  }

  /** So does a pruned bucket that takes one more admission. */
  lemma PrunedPushedTracks(window: nat, cap: nat, b: Bucket, h: seq<int>, now: int)
    requires Tracks(window, cap, b, h, now)
    ensures Tracks(window, cap, b.(entries := Kept(window, b.entries, now) + [now]), h + [now], now)
  {
    KeptLater(window, b.entries, now, now);
    PushedTracks(window, cap, Kept(window, b.entries, now), h, now);
  }

  /** At most `key` has a new history. */
  ghost predicate OnlyMoves(admitted: History, admitted': History, key: Key) {
    forall k | k != key :: Of(admitted', k) == Of(admitted, k)
  }

  /** Changing one key's bucket, and perhaps its history. */
  lemma SetRefines(config: Config, buckets: map<Key, Bucket>, admitted: History, admitted': History, key: Key,
                   b: Bucket, now: int)
    requires Refines(config, buckets, admitted, now) && OnlyMoves(admitted, admitted', key)
    requires Tracks(config.window, Cap(config, key), b, Of(admitted', key), now)
    ensures Refines(config, buckets[key := b], admitted', now)
  {
    var buckets' := buckets[key := b];
    forall k | k in buckets' ensures Tracks(config.window, Cap(config, k), buckets'[k], Of(admitted', k), now) {
      assert k != key ==> Tracks(config.window, Cap(config, k), buckets[k], Of(admitted, k), now);
    }
    forall k | k !in buckets' ensures Expired(config.window, Of(admitted', k), now) {
      assert Expired(config.window, Of(admitted, k), now);
    }
  }

  /** Dropping one key's bucket, when its history has expired or starts over. */
  lemma DropRefines(config: Config, buckets: map<Key, Bucket>, admitted: History, admitted': History, key: Key,
                    now: int)
    requires Refines(config, buckets, admitted, now) && OnlyMoves(admitted, admitted', key)
    requires Expired(config.window, Of(admitted', key), now)
    ensures Refines(config, buckets - {key}, admitted', now)
  {
    var buckets' := buckets - {key};
    forall k | k in buckets' ensures Tracks(config.window, Cap(config, k), buckets'[k], Of(admitted', k), now) {
      assert Tracks(config.window, Cap(config, k), buckets[k], Of(admitted, k), now);
    }
    forall k | k !in buckets' ensures Expired(config.window, Of(admitted', k), now) {
      assert k != key ==> Expired(config.window, Of(admitted, k), now);
    }
  }

  lemma PurgedRefines(config: Config, buckets: map<Key, Bucket>, admitted: History, now: int)
    requires Refines(config, buckets, admitted, now)
    ensures Refines(config, Purged(config.window, buckets, now), admitted, now)
  {
    var live := Purged(config.window, buckets, now);
    forall k | k in live ensures Tracks(config.window, Cap(config, k), live[k], Of(admitted, k), now) {
      PrunedTracks(config.window, Cap(config, k), buckets[k], Of(admitted, k), now);
    }
    forall k | k !in live ensures Expired(config.window, Of(admitted, k), now) {
      if k in buckets { PrunedTracks(config.window, Cap(config, k), buckets[k], Of(admitted, k), now); }
    }
  }

  lemma RefinesNonEmpty(config: Config, buckets: map<Key, Bucket>, admitted: History, now: int)
    requires Refines(config, buckets, admitted, now)
    ensures NonEmpty(buckets)
  {
    forall k | k in buckets ensures buckets[k].entries != [] {
      assert Tracks(config.window, Cap(config, k), buckets[k], Of(admitted, k), now);
    }
  }

  lemma EvictedRefines(config: Config, buckets: map<Key, Bucket>, admitted: History, victim: Key, now: int)
    requires Refines(config, buckets, admitted, now)
    ensures Refines(config, buckets - {victim}, StartedOver(admitted, Some(victim)), now)
  {
    DropRefines(config, buckets, admitted, StartedOver(admitted, Some(victim)), victim, now);
  }

  /** Room for a new key: there is some, or purging makes some, or one eligible key is given up. */
  ghost predicate RoomMade(window: nat, buckets: map<Key, Bucket>, room: bool, evicted: Option<Key>, now: int) {
    var live := Purged(window, buckets, now);
    if |buckets| < MAX_TRACKED_KEYS || |live| < MAX_TRACKED_KEYS then room && evicted.None?
    else NonEmpty(live) && Oldest(window, live, evicted, now) && room == evicted.Some?
  }

  /** What making room leaves. */
  ghost function Remaining(window: nat, buckets: map<Key, Bucket>, evicted: Option<Key>, now: int): map<Key, Bucket> {
    if |buckets| < MAX_TRACKED_KEYS then buckets
    else if evicted.None? then Purged(window, buckets, now)
    else Purged(window, buckets, now) - {evicted.value}
  }

  lemma RemainingRefines(config: Config, buckets: map<Key, Bucket>, admitted: History, evicted: Option<Key>, now: int)
    requires Refines(config, buckets, admitted, now)
    requires |buckets| < MAX_TRACKED_KEYS ==> evicted.None?
    ensures Refines(config, Remaining(config.window, buckets, evicted, now), StartedOver(admitted, evicted), now)
  {
    PurgedRefines(config, buckets, admitted, now);
    var live := Purged(config.window, buckets, now);
    if evicted.Some? { EvictedRefines(config, live, admitted, evicted.value, now); }
  }

  lemma RemainingCard(window: nat, buckets: map<Key, Bucket>, room: bool, evicted: Option<Key>, now: int)
    requires |buckets| <= MAX_TRACKED_KEYS && RoomMade(window, buckets, room, evicted, now)
    ensures var left := Remaining(window, buckets, evicted, now);
            left.Keys <= buckets.Keys && |left| <= MAX_TRACKED_KEYS && (room ==> |left| < MAX_TRACKED_KEYS)
  {
    var live, left := Purged(window, buckets, now), Remaining(window, buckets, evicted, now);
    SubsetCard(live.Keys, buckets.Keys);
    if |buckets| >= MAX_TRACKED_KEYS && evicted.Some? { assert left.Keys == live.Keys - {evicted.value}; }
  }

  lemma EligibleMeans(config: Config, buckets: map<Key, Bucket>, admitted: History, k: Key, now: int)
    requires Refines(config, buckets, admitted, now) && k in buckets
    ensures Eligible(config.window, buckets[k], now) <==> Count(config.window, admitted, k, now) < Cap(config, k)
  {
    PrunedTracks(config.window, Cap(config, k), buckets[k], Of(admitted, k), now);
  }

  /** Only a key below its cap is given up, and room is refused only when every key is at its cap. */
  lemma RoomMeans(config: Config, buckets: map<Key, Bucket>, admitted: History, room: bool, evicted: Option<Key>,
                  now: int)
    requires Refines(config, buckets, admitted, now) && |buckets| <= MAX_TRACKED_KEYS
    requires RoomMade(config.window, buckets, room, evicted, now)
    ensures room <==> |buckets| < MAX_TRACKED_KEYS || SomeEligible(config, buckets.Keys, admitted, now)
    ensures evicted.Some? ==> evicted.value in buckets
    ensures evicted.Some? ==> Count(config.window, admitted, evicted.value, now) < Cap(config, evicted.value)
  {
    var live := Purged(config.window, buckets, now);
    PurgedRefines(config, buckets, admitted, now);
    SubsetCard(live.Keys, buckets.Keys);
    if |buckets| == MAX_TRACKED_KEYS {
      if |live| < MAX_TRACKED_KEYS {
        assert live.Keys != buckets.Keys;
        var k :| k in buckets && k !in live;
        PrunedTracks(config.window, Cap(config, k), buckets[k], Of(admitted, k), now);
        assert Count(config.window, admitted, k, now) == 0;
      } else {
        assert live.Keys == buckets.Keys;
        forall k | k in live
          ensures Eligible(config.window, live[k], now) <==> Count(config.window, admitted, k, now) < Cap(config, k)
        {
          EligibleMeans(config, live, admitted, k, now);
        }
      }
    }
  }

  /** One request: what is decided, which key is given up, and the map afterwards. */
  ghost predicate Decided(config: Config, buckets: map<Key, Bucket>, key: Key, ok: bool, evicted: Option<Key>,
                          buckets': map<Key, Bucket>, now: int)
  {
    var cap := Cap(config, key);
    var kept := if key in buckets then Kept(config.window, buckets[key].entries, now) else [];
    if cap == 0 then !ok && evicted.None? && buckets' == buckets
    else if kept != [] then
      && evicted.None? && ok == (|kept| < cap)
      && buckets' == buckets[key := buckets[key].(entries := if ok then kept + [now] else kept)]
    else
      var left := Remaining(config.window, buckets - {key}, evicted, now);
      && RoomMade(config.window, buckets - {key}, ok, evicted, now)
      && buckets' == if ok then left[key := Bucket([now], cap)] else left
  }

  /** The admission histories after it. */
  function HistoriesAfter(admitted: History, key: Key, ok: bool, evicted: Option<Key>, now: int): History {
    if ok then Noted(StartedOver(admitted, evicted), key, now) else StartedOver(admitted, evicted)
  }

  /** A key still in its window, admitted once more. */
  lemma KnownKeyAdmitted(config: Config, buckets: map<Key, Bucket>, admitted: History, key: Key, now: int)
    requires Refines(config, buckets, admitted, now) && key in buckets
    ensures var kept := Kept(config.window, buckets[key].entries, now);
            Refines(config, buckets[key := buckets[key].(entries := kept + [now])], Noted(admitted, key, now), now)
  {
    var window, h, b := config.window, Of(admitted, key), buckets[key];
    var kept := Kept(window, b.entries, now);
    assert Tracks(window, Cap(config, key), b, h, now);
    PrunedPushedTracks(window, Cap(config, key), b, h, now);
    SetRefines(config, buckets, admitted, Noted(admitted, key, now), key, b.(entries := kept + [now]), now);
  }

  /** The same key refused. */
  lemma KnownKeyRefused(config: Config, buckets: map<Key, Bucket>, admitted: History, key: Key, now: int)
    requires Refines(config, buckets, admitted, now) && key in buckets
    requires Kept(config.window, buckets[key].entries, now) != []
    ensures Refines(config, buckets[key := Pruned(config.window, buckets[key], now)], admitted, now)
  {
    assert Tracks(config.window, Cap(config, key), buckets[key], Of(admitted, key), now);
    PrunedTracks(config.window, Cap(config, key), buckets[key], Of(admitted, key), now);
    SetRefines(config, buckets, admitted, admitted, key, Pruned(config.window, buckets[key], now), now);
  }

  lemma AdmittedRefines(config: Config, left: map<Key, Bucket>, admitted: History, key: Key, now: int)
    requires Refines(config, left, admitted, now) && key !in left && Cap(config, key) > 0
    ensures Refines(config, left[key := Bucket([now], Cap(config, key))], Noted(admitted, key, now), now)
  {
    assert Expired(config.window, Of(admitted, key), now);
    PushedTracks(config.window, Cap(config, key), [], Of(admitted, key), now);
    assert [] + [now] == [now];
    SetRefines(config, left, admitted, Noted(admitted, key, now), key, Bucket([now], Cap(config, key)), now);
  }

  /** A key with nothing left in the window can be forgotten. */
  lemma ForgottenRefines(config: Config, buckets: map<Key, Bucket>, admitted: History, key: Key, now: int)
    requires Refines(config, buckets, admitted, now)
    requires key in buckets ==> Kept(config.window, buckets[key].entries, now) == []
    ensures Refines(config, buckets - {key}, admitted, now)
  {
    if key in buckets { PrunedTracks(config.window, Cap(config, key), buckets[key], Of(admitted, key), now); }
    DropRefines(config, buckets, admitted, admitted, key, now);
  }

  lemma DecidedRefines(config: Config, buckets: map<Key, Bucket>, admitted: History, key: Key, ok: bool,
                       evicted: Option<Key>, buckets': map<Key, Bucket>, now: int)
    requires Refines(config, buckets, admitted, now) && |buckets| <= MAX_TRACKED_KEYS
    requires Decided(config, buckets, key, ok, evicted, buckets', now)
    ensures Refines(config, buckets', HistoriesAfter(admitted, key, ok, evicted, now), now)
  {
    if Cap(config, key) == 0 {
    } else if key in buckets && Kept(config.window, buckets[key].entries, now) != [] {
      if ok {
        KnownKeyAdmitted(config, buckets, admitted, key, now);
      } else {
        KnownKeyRefused(config, buckets, admitted, key, now);
      }
    } else {
      NewKeyRefines(config, buckets, admitted, key, ok, evicted, now);
    }
  }

  lemma NewKeyRefines(config: Config, buckets: map<Key, Bucket>, admitted: History, key: Key, ok: bool,
                      evicted: Option<Key>, now: int)
    requires Refines(config, buckets, admitted, now) && |buckets| <= MAX_TRACKED_KEYS && Cap(config, key) > 0
    requires key in buckets ==> Kept(config.window, buckets[key].entries, now) == []
    requires RoomMade(config.window, buckets - {key}, ok, evicted, now)
    ensures var left := Remaining(config.window, buckets - {key}, evicted, now);
            Refines(config, if ok then left[key := Bucket([now], Cap(config, key))] else left,
                    HistoriesAfter(admitted, key, ok, evicted, now), now)
  {
    var others := buckets - {key};
    ForgottenRefines(config, buckets, admitted, key, now);
    RemainingRefines(config, others, admitted, evicted, now);
    var left := Remaining(config.window, others, evicted, now);
    if ok { AdmittedRefines(config, left, StartedOver(admitted, evicted), key, now); }
  }

  lemma NewKeyCard(config: Config, others: map<Key, Bucket>, key: Key, ok: bool, evicted: Option<Key>, now: int)
    requires |others| <= MAX_TRACKED_KEYS && RoomMade(config.window, others, ok, evicted, now)
    ensures var left := Remaining(config.window, others, evicted, now);
            |left| <= MAX_TRACKED_KEYS && (ok ==> |left[key := Bucket([now], Cap(config, key))]| <= MAX_TRACKED_KEYS)
  {
    RemainingCard(config.window, others, ok, evicted, now);
    var left := Remaining(config.window, others, evicted, now);
    assert left[key := Bucket([now], Cap(config, key))].Keys == left.Keys + {key};
  }

  lemma DecidedCard(config: Config, buckets: map<Key, Bucket>, key: Key, ok: bool, evicted: Option<Key>,
                    buckets': map<Key, Bucket>, now: int)
    requires |buckets| <= MAX_TRACKED_KEYS && Decided(config, buckets, key, ok, evicted, buckets', now)
    ensures |buckets'| <= MAX_TRACKED_KEYS
  {
    if Cap(config, key) == 0 {
    } else if key in buckets && Kept(config.window, buckets[key].entries, now) != [] {
      assert buckets'.Keys == buckets.Keys;
    } else {
      assert (buckets - {key}).Keys == buckets.Keys - {key};
      SubsetCard((buckets - {key}).Keys, buckets.Keys);
      NewKeyCard(config, buckets - {key}, key, ok, evicted, now);
    }
  }

  /** A key's latest admission in the window. */
  function Newest(window: nat, admitted: History, key: Key, now: int): int {
    var kept := Kept(window, Of(admitted, key), now);
    if kept == [] then 0 else kept[|kept| - 1]
  }

  /** A key is given up only when the map is full of keys still in their windows, and then the one below its cap that
      was admitted longest ago. */
  ghost predicate LongestAgo(config: Config, keys: set<Key>, admitted: History, victim: Key, now: int) {
    && |keys| == MAX_TRACKED_KEYS && (forall k | k in keys :: Count(config.window, admitted, k, now) > 0)
    && forall k | k in keys && Count(config.window, admitted, k, now) < Cap(config, k) ::
         Newest(config.window, admitted, victim, now) <= Newest(config.window, admitted, k, now)
  }

  /** A key that survives the purge, in terms of its history. */
  lemma LiveMeans(config: Config, buckets: map<Key, Bucket>, admitted: History, k: Key, now: int)
    requires Refines(config, buckets, admitted, now) && k in Purged(config.window, buckets, now)
    ensures var b := Purged(config.window, buckets, now)[k];
            && b.entries != [] && Last(b) == Newest(config.window, admitted, k, now)
            && Count(config.window, admitted, k, now) > 0
            && (Eligible(config.window, b, now) <==> Count(config.window, admitted, k, now) < Cap(config, k))
  {
    assert Tracks(config.window, Cap(config, k), buckets[k], Of(admitted, k), now);
    KeptLater(config.window, buckets[k].entries, now, now);
  }

  lemma EvictedLongestAgo(config: Config, buckets: map<Key, Bucket>, admitted: History, victim: Key, now: int)
    requires Refines(config, buckets, admitted, now) && |buckets| <= MAX_TRACKED_KEYS
    requires RoomMade(config.window, buckets, true, Some(victim), now)
    ensures LongestAgo(config, buckets.Keys, admitted, victim, now)
  {
    var live := Purged(config.window, buckets, now);
    SubsetCard(live.Keys, buckets.Keys);
    assert live.Keys == buckets.Keys;
    LiveMeans(config, buckets, admitted, victim, now);
    forall k | k in buckets
      ensures Count(config.window, admitted, k, now) > 0
      ensures Count(config.window, admitted, k, now) < Cap(config, k) ==>
                Newest(config.window, admitted, victim, now) <= Newest(config.window, admitted, k, now)
    {
      LiveMeans(config, buckets, admitted, k, now);
      assert k in live;
    }
  }

  /** What the decision means in terms of full histories. */
  ghost predicate Fair(config: Config, keys: set<Key>, admitted: History, key: Key, ok: bool, evicted: Option<Key>,
                       now: int)
  {
    && (Cap(config, key) == 0 ==> !ok)
    && (key in keys ==> (ok <==> Count(config.window, admitted, key, now) < Cap(config, key)))
    && (key !in keys && Cap(config, key) > 0 ==>
          (ok <==> |keys| < MAX_TRACKED_KEYS || SomeEligible(config, keys, admitted, now)))
    && (ok ==> Count(config.window, admitted, key, now) < Cap(config, key))
    && (evicted.Some? ==>
          && evicted.value != key && evicted.value in keys
          && Count(config.window, admitted, evicted.value, now) < Cap(config, evicted.value)
          && LongestAgo(config, keys, admitted, evicted.value, now))
  }

  lemma DecidedIsFair(config: Config, buckets: map<Key, Bucket>, admitted: History, key: Key, ok: bool,
                      evicted: Option<Key>, buckets': map<Key, Bucket>, now: int)
    requires Refines(config, buckets, admitted, now) && |buckets| <= MAX_TRACKED_KEYS
    requires Decided(config, buckets, key, ok, evicted, buckets', now)
    ensures Fair(config, buckets.Keys, admitted, key, ok, evicted, now)
  {
    if key in buckets {
      PrunedTracks(config.window, Cap(config, key), buckets[key], Of(admitted, key), now);
    } else {
      assert Expired(config.window, Of(admitted, key), now);
    }
    var kept := if key in buckets then Kept(config.window, buckets[key].entries, now) else [];
    if Cap(config, key) > 0 && kept == [] {
      var others := buckets - {key};
      assert others.Keys == buckets.Keys - {key};
      SubsetCard(others.Keys, buckets.Keys);
      ForgottenRefines(config, buckets, admitted, key, now);
      RoomMeans(config, others, admitted, ok, evicted, now);
      if evicted.Some? {
        EvictedLongestAgo(config, others, admitted, evicted.value, now);
        assert others.Keys == buckets.Keys;
      }
    }
  }

  lemma HistoriesSet(config: Config, admitted: History, key: Key, h: seq<int>, now: int)
    requires Histories(config, admitted, now) && Sane(config.window, Cap(config, key), h, now)
    ensures Histories(config, admitted[key := h], now)
  {
    forall k ensures Sane(config.window, Cap(config, k), Of(admitted[key := h], k), now) {
      assert Sane(config.window, Cap(config, k), Of(admitted, k), now);
    }
  }

  lemma FairKeepsHistories(config: Config, keys: set<Key>, admitted: History, key: Key, ok: bool, evicted: Option<Key>,
                           now: int)
    requires Histories(config, admitted, now) && Fair(config, keys, admitted, key, ok, evicted, now)
    ensures Histories(config, HistoriesAfter(admitted, key, ok, evicted, now), now)
  {
    var over := StartedOver(admitted, evicted);
    if evicted.Some? { HistoriesSet(config, admitted, evicted.value, [], now); }
    if ok {
      assert Of(over, key) == Of(admitted, key);
      assert Sane(config.window, Cap(config, key), Of(over, key), now);
      AdmissionKeepsSpacing(config.window, Of(over, key), Cap(config, key), now);
      HistoriesSet(config, over, key, Of(over, key) + [now], now);
    }
  }

  /** All of it, from the state of an earlier moment. */
  lemma DecidedKeeps(config: Config, buckets: map<Key, Bucket>, admitted: History, clock: int, key: Key, ok: bool,
                     evicted: Option<Key>, buckets': map<Key, Bucket>, now: int)
    requires clock <= now && |buckets| <= MAX_TRACKED_KEYS
    requires Refines(config, buckets, admitted, clock) && Histories(config, admitted, clock)
    requires Decided(config, buckets, key, ok, evicted, buckets', now)
    ensures |buckets'| <= MAX_TRACKED_KEYS
    ensures Refines(config, buckets', HistoriesAfter(admitted, key, ok, evicted, now), now)
    ensures Histories(config, HistoriesAfter(admitted, key, ok, evicted, now), now)
    ensures Fair(config, buckets.Keys, admitted, key, ok, evicted, now)
  {
    RefinesLater(config, buckets, admitted, clock, now);
    DecidedRefines(config, buckets, admitted, key, ok, evicted, buckets', now);
    DecidedCard(config, buckets, key, ok, evicted, buckets', now);
    DecidedIsFair(config, buckets, admitted, key, ok, evicted, buckets', now);
    FairKeepsHistories(config, buckets.Keys, admitted, key, ok, evicted, now);
  }

  /** Since its last eviction no key was admitted more often than its cap in any window, wherever the window starts. */
  lemma ClientsAreCapped(config: Config, admitted: History, clock: int, key: Key, from: int)
    requires Histories(config, admitted, clock)
    ensures |Within(Of(admitted, key), from, from + config.window)| <= Cap(config, key)
  {
    assert Sane(config.window, Cap(config, key), Of(admitted, key), clock);
    WindowsAreCapped(config.window, Of(admitted, key), Cap(config, key), clock, from);
  }

  class Limiter {
    const config: Config
    var buckets: map<Key, Bucket>
    /** The unpruned history of each key since its last eviction. */
    ghost var admitted: History
    ghost var clock: int

    ghost predicate Valid()
      reads this
    {
      && |buckets| <= MAX_TRACKED_KEYS
      && Refines(config, buckets, admitted, clock)
      && Histories(config, admitted, clock)
    }

    constructor (config: Config)
      ensures Valid() && buckets == map[] && admitted == map[] && this.config == config
    {
      this.config := config;
      buckets, admitted, clock := map[], map[], 0;
    }

    method MakeRoom(now: int) returns (room: bool, ghost evicted: Option<Key>)
      requires NonEmpty(buckets)
      modifies `buckets
      ensures RoomMade(config.window, old(buckets), room, evicted, now)
      ensures buckets == Remaining(config.window, old(buckets), evicted, now)
    {
      evicted := None;
      if |buckets| < MAX_TRACKED_KEYS { return true, None; }
      buckets := PurgeExpired(config.window, buckets, now);
      if |buckets| < MAX_TRACKED_KEYS { return true, None; }
      assert NonEmpty(buckets);
      var victim := OldestEligible(config.window, buckets, now);
      room, evicted := victim.Some?, victim;
      if victim.Some? { buckets := buckets - {victim.value}; }
    }

    method Decide(key: Key, maxRequests: nat, now: int) returns (ok: bool, ghost evicted: Option<Key>)
      requires NonEmpty(buckets) && maxRequests == Cap(config, key)
      modifies `buckets
      ensures Decided(config, old(buckets), key, ok, evicted, buckets, now)
    {
      evicted := None;
      if maxRequests == 0 { return false, None; }
      if key in buckets {
        var kept := Retain(config.window, buckets[key].entries, now);
        if kept != [] {
          ok := |kept| < maxRequests;
          buckets := buckets[key := buckets[key].(entries := if ok then kept + [now] else kept)];
          return;
        }
      }
      buckets := buckets - {key};
      ok, evicted := MakeRoom(now);
      if ok { buckets := buckets[key := Bucket([now], maxRequests)]; }
    }

    /** Admits or refuses one request; `evicted` is the key whose history starts over, if any. */
    method Check(key: Key, maxRequests: nat, now: int) returns (ok: bool, ghost evicted: Option<Key>)
      requires Valid() && clock <= now && maxRequests == Cap(config, key)
      modifies `buckets, `admitted, `clock
      ensures Valid() && clock == now
      ensures Fair(config, old(buckets.Keys), old(admitted), key, ok, evicted, now)
      ensures admitted == HistoriesAfter(old(admitted), key, ok, evicted, now)
    {
      RefinesNonEmpty(config, buckets, admitted, clock);
      ok, evicted := Decide(key, maxRequests, now);
      DecidedKeeps(config, old(buckets), admitted, clock, key, ok, evicted, buckets, now);
      admitted, clock := HistoriesAfter(admitted, key, ok, evicted, now), now;
    }
  }
}
