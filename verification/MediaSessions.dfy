/**
 Media output sessions: one per publisher connection, rebuilt on a republish or a stream change, and debounced. A call
 reads the clock more than once; `check` is when a debounce window is looked at and `stamp` when a session is stamped.
 */
module MediaSessions {
  import opened Basics
  import Flv

  const REPUBLISH_RESTART_MIN_INTERVAL: nat := 2000

  datatype StreamId = Empty | Named(id: nat)

  datatype Session = Session(
    generation: nat, stream: StreamId, lastTimestamp: Option<Flv.U32>, restartedAt: Option<nat>,
    lastSwitchAt: Option<nat>)

  type Sessions = map<nat, Session>

  /** What a call did to the connection's session. `Lost`: the old one was retired and the stream could not be read. */
  datatype Event = Nothing | Opened | Restarted | Switched | Lost

  datatype Outcome = Outcome(sessions: Sessions, event: Event)

  predicate Recent(at: Option<nat>, now: nat) {
    at.Some? && now < at.value + REPUBLISH_RESTART_MIN_INTERVAL
  }

  function Backward(last: Flv.U32, timestamp: Flv.U32): Flv.U32 {
    (last - timestamp) % 0x1_0000_0000
  }

  predicate IsReset(last: Flv.U32, timestamp: Flv.U32) {
    1000 < Backward(last, timestamp) < 0xffff_ffff / 2
  }

  /** One call, with what the outside world answers it: whether the stream's row can be read, and the clock. */
  datatype Call =
    | Ensure(conn: nat, stream: StreamId, generation: nat, readable: bool, check: nat, stamp: nat)
    | Frame(conn: nat, stream: StreamId, generation: nat, timestamp: Flv.U32, readable: bool, switched: nat, check: nat,
            stamp: nat)
    | Retain(live: set<nat>)

  // ----- The calls as functions

  function Fresh(c: Call): Session
    requires !c.Retain?
  {
    Session(c.generation, c.stream, None, None, None)
  }

  /** The old session goes; the new one comes if its stream can be read. */
  function Rebuilt(sessions: Sessions, conn: nat, session: Session, readable: bool, event: Event): Outcome {
    if readable then Outcome(sessions[conn := session], event)
    else Outcome(sessions - {conn}, if conn in sessions then Lost else Nothing)
  }

  function Ensured(sessions: Sessions, c: Call): Outcome
    requires c.Ensure?
  {
    var built := Fresh(c).(restartedAt := Some(c.stamp));
    if c.conn !in sessions then Rebuilt(sessions, c.conn, built, c.readable, Opened)
    else
      var s := sessions[c.conn];
      if s.stream != c.stream then
        if Recent(s.lastSwitchAt, c.check) then Outcome(sessions, Nothing)
        else Rebuilt(sessions, c.conn, built.(lastSwitchAt := Some(c.stamp)), c.readable, Switched)
      else if s.generation == c.generation then Outcome(sessions, Nothing)
      else if Recent(s.restartedAt, c.check) then Outcome(sessions[c.conn := s.(generation := c.generation)], Nothing)
      else Rebuilt(sessions, c.conn, built, c.readable, Restarted)
  }

  /** The session a frame finds or makes, following the frame's stream. */
  function Followed(sessions: Sessions, c: Call): Outcome
    requires c.Frame?
  {
    if c.conn !in sessions then Rebuilt(sessions, c.conn, Fresh(c), c.readable, Opened)
    else if sessions[c.conn].stream != c.stream then
      Rebuilt(sessions, c.conn, Fresh(c).(lastSwitchAt := Some(c.switched)), c.readable, Switched)
    else Outcome(sessions, Nothing)
  }

  predicate TimestampReset(s: Session, c: Call)
    requires c.Frame?
  {
    !Recent(s.restartedAt, c.check) && s.lastTimestamp.Some? && IsReset(s.lastTimestamp.value, c.timestamp)
  }

  function Reset(o: Outcome, c: Call): Outcome
    requires c.Frame?
  {
    if c.conn in o.sessions && TimestampReset(o.sessions[c.conn], c) then
      var built := Fresh(c).(restartedAt := Some(c.stamp), lastSwitchAt := o.sessions[c.conn].lastSwitchAt);
      Rebuilt(o.sessions, c.conn, built, c.readable, Restarted)
    else o
  }

  function Handled(sessions: Sessions, c: Call): Outcome
    requires c.Frame?
  {
    var o := Reset(Followed(sessions, c), c);
    if c.conn in o.sessions then
      o.(sessions := o.sessions[c.conn := o.sessions[c.conn].(lastTimestamp := Some(c.timestamp))])
    else o
  }

  function Step(enabled: bool, sessions: Sessions, c: Call): Outcome {
    if c.Retain? then Outcome(map conn | conn in sessions && conn in c.live :: sessions[conn], Nothing)
    else if !enabled || c.stream.Empty? then Outcome(sessions, Nothing)
    else if c.Ensure? then Ensured(sessions, c)
    else Handled(sessions, c)
  }

  // ----- The manager

  class MediaOutputManager {
    const enabled: bool
    var sessions: Sessions

    constructor (enabled: bool)
      ensures this.enabled == enabled && sessions == map[]
    {
      this.enabled, sessions := enabled, map[];
    }

    /** The session is the map's only change, and only a readable stream gets one. */
    method StartSession(conn: nat, stream: StreamId, generation: nat, readable: bool)
      modifies this
      ensures sessions == if readable then old(sessions)[conn := Session(generation, stream, None, None, None)]
                          else old(sessions)
    {
      if readable { sessions := sessions[conn := Session(generation, stream, None, None, None)]; }
    }

    method EnsurePublisher(c: Call) returns (ghost event: Event)
      requires c.Ensure?
      modifies this
      ensures Outcome(sessions, event) == Step(enabled, old(sessions), c)
    {
      event := Nothing;
      if !enabled || c.stream.Empty? { return; }
      ghost var had := c.conn in sessions;
      if c.conn in sessions {
        var session := sessions[c.conn];
        if session.stream == c.stream && session.generation == c.generation { return; }
        if session.stream == c.stream {
          if Recent(session.restartedAt, c.check) {
            sessions := sessions[c.conn := session.(generation := c.generation)];
            return;
          }
        } else if Recent(session.lastSwitchAt, c.check) {
          return;
        }
      }
      var switched := c.conn in sessions && sessions[c.conn].stream != c.stream;
      sessions := sessions - {c.conn};
      StartSession(c.conn, c.stream, c.generation, c.readable);
      if c.conn in sessions {
        event := if switched then Switched else if had then Restarted else Opened;
        sessions := sessions[c.conn := sessions[c.conn].(restartedAt := Some(c.stamp))];
        if switched { sessions := sessions[c.conn := sessions[c.conn].(lastSwitchAt := Some(c.stamp))]; }
      } else if had {
        event := Lost;
      }
    }

    /** `delivered`: the frame's tag is offered to the sinks of the connection's session. */
    method HandleFrame(c: Call, payloadSize: nat) returns (delivered: bool, ghost event: Event)
      requires c.Frame?
      modifies this
      ensures Outcome(sessions, event) == Step(enabled, old(sessions), c)
      ensures delivered ==> c.conn in sessions && sessions[c.conn].stream == c.stream
      ensures delivered <==> enabled && c.stream.Named? && c.conn in sessions && payloadSize <= Flv.MAX_FLV_PAYLOAD
    {
      delivered, event := false, Nothing;
      if !enabled || c.stream.Empty? { return; }
      var hadSession := c.conn in sessions;
      if !hadSession || sessions[c.conn].stream != c.stream {
        sessions := sessions - {c.conn};
        StartSession(c.conn, c.stream, c.generation, c.readable);
        if hadSession && c.conn in sessions {
          sessions := sessions[c.conn := sessions[c.conn].(lastSwitchAt := Some(c.switched))];
        }
        event := if c.conn !in sessions then (if hadSession then Lost else Nothing)
                 else if hadSession then Switched else Opened;
      }
      assert Outcome(sessions, event) == Followed(old(sessions), c);
      if c.conn in sessions && TimestampReset(sessions[c.conn], c) {
        var lastSwitchAt := sessions[c.conn].lastSwitchAt;
        sessions := sessions - {c.conn};
        StartSession(c.conn, c.stream, c.generation, c.readable);
        event := if c.conn in sessions then Restarted else Lost;
        if c.conn in sessions {
          sessions := sessions[c.conn := sessions[c.conn].(restartedAt := Some(c.stamp), lastSwitchAt := lastSwitchAt)];
        }
      }
      assert Outcome(sessions, event) == Reset(Followed(old(sessions), c), c);
      if c.conn !in sessions || sessions[c.conn].stream != c.stream { return; }
      sessions := sessions[c.conn := sessions[c.conn].(lastTimestamp := Some(c.timestamp))];
      delivered := payloadSize <= Flv.MAX_FLV_PAYLOAD;
    }

    method RetainPublishers(live: set<nat>)
      modifies this
      ensures sessions == Step(enabled, old(sessions), Retain(live)).sessions
    {
      var stale := set conn | conn in sessions && conn !in live;
      ghost var before := sessions;
      while stale != {}
        invariant stale <= before.Keys - live
        invariant sessions == map conn | conn in before && (conn in live || conn in stale) :: before[conn]
        decreases stale
      {
        var conn :| conn in stale;
        sessions := sessions - {conn};
        stale := stale - {conn};
      }
    }
  }

  // ----- Runs

  ghost function Reached(enabled: bool, sessions: Sessions, calls: seq<Call>): Sessions
    decreases calls
  {
    if calls == [] then sessions else Reached(enabled, Step(enabled, sessions, calls[0]).sessions, calls[1..])
  }

  predicate Restarts(enabled: bool, sessions: Sessions, c: Call, conn: nat) {
    !c.Retain? && c.conn == conn && Step(enabled, sessions, c).event == Restarted
  }

  ghost function RestartCount(enabled: bool, sessions: Sessions, calls: seq<Call>, conn: nat): nat
    decreases calls
  {
    if calls == [] then 0
    else
      (if Restarts(enabled, sessions, calls[0], conn) then 1 else 0) +
      RestartCount(enabled, Step(enabled, sessions, calls[0]).sessions, calls[1..], conn)
  }

  /** The connection keeps to one stream and is never dropped. */
  predicate Stays(calls: seq<Call>, conn: nat, stream: StreamId) {
    calls == [] ||
    (&& (if calls[0].Retain? then conn in calls[0].live else calls[0].conn == conn ==> calls[0].stream == stream)
     && Stays(calls[1..], conn, stream))
  }

  // ----- Timestamps

  function Forward(last: Flv.U32, timestamp: Flv.U32): Flv.U32 {
    (timestamp - last) % 0x1_0000_0000
  }

  /** A step counts as a reset exactly when, going forward, it is longer than 2^31 + 1 and more than 1000 short of a
      full turn; so no wrap-around of the millisecond counter is one. */
  lemma ResetExactly(last: Flv.U32, timestamp: Flv.U32)
    ensures IsReset(last, timestamp) <==> 0x8000_0001 < Forward(last, timestamp) < 0x1_0000_0000 - 1000
  {
    var d := last - timestamp;
    assert Backward(last, timestamp) == if d >= 0 then d else d + 0x1_0000_0000;
    assert Forward(last, timestamp) == if d <= 0 then -d else 0x1_0000_0000 - d;
  }

  // ----- What each call does, and when

  predicate Active(enabled: bool, c: Call) {
    enabled && !c.Retain? && c.stream.Named?
  }

  /** A publish opens, restarts, switches or loses the session exactly in these cases; a session it builds is stamped
      and carries the publish's stream and generation. */
  lemma EnsureExactly(sessions: Sessions, c: Call)
    requires c.Ensure? && Active(true, c)
    ensures var o, had := Step(true, sessions, c), c.conn in sessions;
            var again := && had && sessions[c.conn].stream == c.stream && sessions[c.conn].generation != c.generation
                         && !Recent(sessions[c.conn].restartedAt, c.check);
            var other := had && sessions[c.conn].stream != c.stream && !Recent(sessions[c.conn].lastSwitchAt, c.check);
            && (o.event == Opened <==> !had && c.readable)
            && (o.event == Restarted <==> again && c.readable)
            && (o.event == Switched <==> other && c.readable)
            && (o.event == Lost <==> (again || other) && !c.readable)
            && (o.event == Lost ==> c.conn !in o.sessions)
            && (o.event in {Opened, Restarted, Switched} ==>
                  && c.conn in o.sessions
                  && o.sessions[c.conn] == Session(c.generation, c.stream, None, Some(c.stamp),
                                                   if o.event == Switched then Some(c.stamp) else None))
            && (had && o.event == Nothing ==>
                  && c.conn in o.sessions
                  && o.sessions[c.conn] == sessions[c.conn].(generation := o.sessions[c.conn].generation))
  {
  }

  /** A publish held back on its own stream is taken note of: the same publish asked for again changes nothing, however
      much later. */
  lemma HeldBackPublishIsNoted(sessions: Sessions, c: Call, later: Call)
    requires c.Ensure? && Active(true, c) && c.conn in sessions && sessions[c.conn].stream == c.stream
    requires Recent(sessions[c.conn].restartedAt, c.check)
    requires later.Ensure? && later.conn == c.conn && later.stream == c.stream && later.generation == c.generation
    ensures var s := Step(true, sessions, c).sessions; Step(true, s, later) == Outcome(s, Nothing)
  {
  }

  /** After a frame of a readable stream the connection has a session of that stream, holding the frame's timestamp; it
      is a new one exactly when there was none, or one of another stream, or the timestamp was a reset. */
  lemma FrameExactly(sessions: Sessions, c: Call)
    requires c.Frame? && Active(true, c) && c.readable
    ensures var o, had := Step(true, sessions, c), c.conn in sessions;
            && c.conn in o.sessions && o.sessions[c.conn].stream == c.stream
            && o.sessions[c.conn].lastTimestamp == Some(c.timestamp)
            && (o.event == Opened <==> !had)
            && (o.event == Switched <==> had && sessions[c.conn].stream != c.stream)
            && (o.event == Restarted <==>
                  had && sessions[c.conn].stream == c.stream && TimestampReset(sessions[c.conn], c))
            && (o.event != Nothing ==> o.sessions[c.conn].generation == c.generation)
            && (o.event == Nothing ==>
                  had && o.sessions[c.conn] == sessions[c.conn].(lastTimestamp := Some(c.timestamp)))
            && (o.event == Restarted ==>
                  && o.sessions[c.conn].restartedAt == Some(c.stamp)
                  && o.sessions[c.conn].lastSwitchAt == sessions[c.conn].lastSwitchAt)
            && (o.event == Switched ==> o.sessions[c.conn].lastSwitchAt == Some(c.switched))
  {
  }

  /** Of two successive frames on one readable stream, the second restarts the session exactly when no restart is recent
      and the timestamp has gone back by more than a second and less than half its range. */
  lemma SecondFrameRestartsExactly(sessions: Sessions, a: Call, b: Call)
    requires a.Frame? && b.Frame? && Active(true, a) && a.readable && b.readable
    requires a.conn == b.conn && a.stream == b.stream
    ensures var s := Step(true, sessions, a).sessions;
            && a.conn in s
            && (Step(true, s, b).event == Restarted <==>
                  && !Recent(s[a.conn].restartedAt, b.check)
                  && 0x8000_0001 < Forward(a.timestamp, b.timestamp) < 0x1_0000_0000 - 1000)
  {
    FrameExactly(sessions, a);
    FrameExactly(Step(true, sessions, a).sessions, b);
    ResetExactly(a.timestamp, b.timestamp);
  }

  /** A frame whose stream cannot be read keeps a session of its stream unless its timestamp is a reset, and otherwise
      leaves none. */
  lemma UnreadableFrameExactly(sessions: Sessions, c: Call)
    requires c.Frame? && Active(true, c) && !c.readable
    ensures var o := Step(true, sessions, c);
            c.conn in o.sessions <==>
              c.conn in sessions && sessions[c.conn].stream == c.stream && !TimestampReset(sessions[c.conn], c)
  {
  }

  /** A call touches no other connection, and none when outputs are disabled or the stream has no name. */
  lemma OthersUntouched(enabled: bool, sessions: Sessions, c: Call, conn: nat)
    requires !c.Retain? && (conn != c.conn || !Active(enabled, c))
    ensures var s := Step(enabled, sessions, c).sessions;
            (conn in s <==> conn in sessions) && (conn in s ==> s[conn] == sessions[conn])
  {
  }

  lemma RetainExactly(enabled: bool, sessions: Sessions, live: set<nat>, conn: nat)
    ensures var s := Step(enabled, sessions, Retain(live)).sessions;
            (conn in s <==> conn in sessions && conn in live) && (conn in s ==> s[conn] == sessions[conn])
  {
  }

  // ----- Smooth timestamps

  predicate SmoothStep(last: Flv.U32, timestamp: Flv.U32) {
    Forward(last, timestamp) <= 0x8000_0000 || Backward(last, timestamp) <= 1000
  }

  /** One publish: the connection's calls have one generation, and its frames step smoothly from `last`. */
  predicate Smooth(calls: seq<Call>, conn: nat, generation: nat, last: Option<Flv.U32>) {
    calls == [] ||
    var c := calls[0];
    if c.Retain? || c.conn != conn then Smooth(calls[1..], conn, generation, last)
    else
      && c.generation == generation
      && (c.Frame? && last.Some? ==> SmoothStep(last.value, c.timestamp))
      && Smooth(calls[1..], conn, generation, if c.Frame? then Some(c.timestamp) else last)
  }

  ghost predicate InPublish(enabled: bool, sessions: Sessions, conn: nat, stream: StreamId, generation: nat,
                            last: Option<Flv.U32>)
  {
    enabled && stream.Named? && conn in sessions ==>
      && sessions[conn].stream == stream && sessions[conn].generation == generation
      && (sessions[conn].lastTimestamp.None? || sessions[conn].lastTimestamp == last)
  }

  lemma SmoothCall(enabled: bool, sessions: Sessions, c: Call, conn: nat, stream: StreamId, generation: nat,
                   last: Option<Flv.U32>)
    requires InPublish(enabled, sessions, conn, stream, generation, last)
    requires !c.Retain? && c.conn == conn && c.stream == stream
    requires c.generation == generation && (c.Frame? && last.Some? ==> SmoothStep(last.value, c.timestamp))
    ensures var o := Step(enabled, sessions, c);
            && InPublish(enabled, o.sessions, conn, stream, generation, if c.Frame? then Some(c.timestamp) else last)
            && o.event != Restarted && (conn in sessions ==> conn in o.sessions)
  {
    if c.Frame? && last.Some? { ResetExactly(last.value, c.timestamp); }
  }

  /** A publish whose timestamps step forward by at most 2^31 modulo 2^32, or back by at most 1000, never restarts its
      session, and never loses it. */
  lemma {:induction false} SmoothPublishNeverRestarts(enabled: bool, sessions: Sessions, calls: seq<Call>, conn: nat,
                                                      stream: StreamId, generation: nat, last: Option<Flv.U32>)
    requires InPublish(enabled, sessions, conn, stream, generation, last)
    requires Stays(calls, conn, stream) && Smooth(calls, conn, generation, last)
    ensures RestartCount(enabled, sessions, calls, conn) == 0
    ensures conn in sessions ==> conn in Reached(enabled, sessions, calls)
    decreases calls
  {
    if calls != [] {
      var c, next := calls[0], Step(enabled, sessions, calls[0]).sessions;
      if c.Retain? || c.conn != conn {
        SmoothPublishNeverRestarts(enabled, next, calls[1..], conn, stream, generation, last);
      } else {
        SmoothCall(enabled, sessions, c, conn, stream, generation, last);
        SmoothPublishNeverRestarts(enabled, next, calls[1..], conn, stream, generation,
                                   if c.Frame? then Some(c.timestamp) else last);
      }
    }
  }
}
