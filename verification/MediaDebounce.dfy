/**
 The two debounces of media sessions: a restart holds back the next restart, and a stream change holds back the next
 stream change asked for by a publish command, each by a stamp in the session. A rebuilt session starts without the
 stamps that are not carried over, so a debounce holds exactly until a call loses its stamp.
 */
module MediaDebounce {
  import opened Basics
  import opened MediaSessions

  datatype Debounce = OfRestarts | OfSwitches

  /** What opens a window of `d`: a restart, or a stream change. */
  predicate Starts(d: Debounce, enabled: bool, sessions: Sessions, c: Call, conn: nat) {
    !c.Retain? && c.conn == conn
    && Step(enabled, sessions, c).event == match d case OfRestarts => Restarted case OfSwitches => Switched
  }

  /** What `d` holds back: a restart, or a stream change by a publish command. */
  predicate Triggers(d: Debounce, enabled: bool, sessions: Sessions, c: Call, conn: nat) {
    Starts(d, enabled, sessions, c, conn) && (d.OfSwitches? ==> c.Ensure?)
  }

  function StampOf(d: Debounce, c: Call): nat
    requires !c.Retain?
  {
    if d.OfSwitches? && c.Frame? then c.switched else c.stamp
  }

  /** The session carries a stamp of `d` no older than `since`. */
  predicate Holds(d: Debounce, sessions: Sessions, conn: nat, since: nat) {
    conn in sessions &&
    var stamp := match d case OfRestarts => sessions[conn].restartedAt case OfSwitches => sessions[conn].lastSwitchAt;
    stamp.Some? && stamp.value >= since
  }

  /**
   The call takes the stamp away, as the caller can tell beforehand. Both: the connection is dropped. Restarts: a frame
   follows another stream, or a publish of another stream, not held back, finds it unreadable. Stream changes: a
   publish with a new generation, not held back, rebuilds the session; or a frame must rebuild it and cannot.
   */
  predicate Loses(d: Debounce, enabled: bool, sessions: Sessions, c: Call, conn: nat) {
    conn in sessions &&
    if c.Retain? then conn !in c.live
    else
      enabled && c.stream.Named? && c.conn == conn &&
      var s := sessions[conn];
      match d
      case OfRestarts => s.stream != c.stream && (c.Frame? || (!c.readable && !Recent(s.lastSwitchAt, c.check)))
      case OfSwitches =>
        if c.Ensure? then s.stream == c.stream && s.generation != c.generation && !Recent(s.restartedAt, c.check)
        else !c.readable && (s.stream != c.stream || TimestampReset(s, c))
  }

  // ----- The clock

  function At(c: Call, now: nat): nat {
    if c.Retain? then now else c.check
  }

  function After(c: Call, now: nat): nat {
    if c.Retain? then now else c.stamp
  }

  /** The clock does not run backwards within a call. */
  predicate Timely(c: Call, now: nat) {
    c.Retain? || (now <= c.check <= c.stamp && (c.Frame? ==> now <= c.switched <= c.check))
  }

  /** Nor between calls, from `now` until `until`. */
  predicate Clocked(calls: seq<Call>, now: nat, until: nat) {
    if calls == [] then now <= until
    else Timely(calls[0], now) && Clocked(calls[1..], After(calls[0], now), until)
  }

  /** No call before `deadline` loses the stamp of `d`. */
  predicate Unlost(d: Debounce, enabled: bool, sessions: Sessions, calls: seq<Call>, conn: nat, now: nat, deadline: nat)
    decreases calls
  {
    calls == [] ||
    var c := calls[0];
    && (At(c, now) < deadline ==> !Loses(d, enabled, sessions, c, conn))
    && Unlost(d, enabled, Step(enabled, sessions, c).sessions, calls[1..], conn, After(c, now), deadline)
  }

  // ----- One call

  /** Inside the window, the stamp survives a call exactly when the call does not lose it. */
  lemma SurvivesExactly(d: Debounce, enabled: bool, sessions: Sessions, c: Call, conn: nat, since: nat, now: nat)
    requires Holds(d, sessions, conn, since) && since <= now && Timely(c, now)
    requires At(c, now) < since + REPUBLISH_RESTART_MIN_INTERVAL
    ensures Holds(d, Step(enabled, sessions, c).sessions, conn, since) <==> !Loses(d, enabled, sessions, c, conn)
  {
  }

  /** The stamp holds back what it should. */
  lemma HeldBack(d: Debounce, enabled: bool, sessions: Sessions, c: Call, conn: nat, since: nat)
    requires Holds(d, sessions, conn, since) && Triggers(d, enabled, sessions, c, conn)
    ensures c.check >= since + REPUBLISH_RESTART_MIN_INTERVAL
  {
  }

  lemma StartStamps(d: Debounce, enabled: bool, sessions: Sessions, c: Call, conn: nat)
    requires Starts(d, enabled, sessions, c, conn)
    ensures Holds(d, Step(enabled, sessions, c).sessions, conn, StampOf(d, c))
  {
  }

  // ----- Runs

  /** The window opened at `since` has passed, or its stamp is still there. */
  predicate Guarded(d: Debounce, sessions: Sessions, conn: nat, since: nat, now: nat) {
    now >= since + REPUBLISH_RESTART_MIN_INTERVAL || Holds(d, sessions, conn, since)
  }

  lemma {:induction false} UnlostRunIsGuarded(d: Debounce, enabled: bool, sessions: Sessions, calls: seq<Call>,
                                              conn: nat, since: nat, now: nat, until: nat)
    requires Guarded(d, sessions, conn, since, now) && since <= now && Clocked(calls, now, until)
    requires Unlost(d, enabled, sessions, calls, conn, now, since + REPUBLISH_RESTART_MIN_INTERVAL)
    ensures Guarded(d, Reached(enabled, sessions, calls), conn, since, until)
    decreases calls
  {
    if calls != [] {
      var c, next := calls[0], Step(enabled, sessions, calls[0]).sessions;
      if At(c, now) < since + REPUBLISH_RESTART_MIN_INTERVAL {
        SurvivesExactly(d, enabled, sessions, c, conn, since, now);
      }
      UnlostRunIsGuarded(d, enabled, next, calls[1..], conn, since, After(c, now), until);
    }
  }

  /** From any state and for any calls between the two, on this connection and others: a restart comes at least two
      seconds after a restart, and a publish-driven stream change at least two seconds after a stream change, unless a
      call inside the window loses the stamp. */
  lemma DebouncedAreSpaced(d: Debounce, enabled: bool, sessions: Sessions, first: Call, between: seq<Call>,
                           second: Call, conn: nat)
    requires Starts(d, enabled, sessions, first, conn) && StampOf(d, first) <= first.stamp
    requires var s := Step(enabled, sessions, first).sessions;
             && Unlost(d, enabled, s, between, conn, first.stamp, StampOf(d, first) + REPUBLISH_RESTART_MIN_INTERVAL)
             && Triggers(d, enabled, Reached(enabled, s, between), second, conn)
             && Clocked(between, first.stamp, second.check)
    ensures second.check >= StampOf(d, first) + REPUBLISH_RESTART_MIN_INTERVAL
  {
    var s, since := Step(enabled, sessions, first).sessions, StampOf(d, first);
    StartStamps(d, enabled, sessions, first, conn);
    UnlostRunIsGuarded(d, enabled, s, between, conn, since, first.stamp, second.check);
    if second.check < since + REPUBLISH_RESTART_MIN_INTERVAL {
      HeldBack(d, enabled, Reached(enabled, s, between), second, conn, since);
    }
  }

  /** The stamp is there before and after every call. */
  predicate HeldThroughout(d: Debounce, enabled: bool, sessions: Sessions, calls: seq<Call>, conn: nat, since: nat)
    decreases calls
  {
    && Holds(d, sessions, conn, since)
    && (calls != [] ==> HeldThroughout(d, enabled, Step(enabled, sessions, calls[0]).sessions, calls[1..], conn, since))
  }

  /** Over a run inside the window, the stamp is kept throughout exactly when no call loses it. */
  lemma {:induction false} HeldThroughoutExactly(d: Debounce, enabled: bool, sessions: Sessions, calls: seq<Call>,
                                                 conn: nat, since: nat, now: nat, until: nat)
    requires Holds(d, sessions, conn, since) && since <= now && Clocked(calls, now, until)
    requires until < since + REPUBLISH_RESTART_MIN_INTERVAL
    ensures HeldThroughout(d, enabled, sessions, calls, conn, since)
            <==> Unlost(d, enabled, sessions, calls, conn, now, since + REPUBLISH_RESTART_MIN_INTERVAL)
    decreases calls
  {
    if calls != [] {
      var c, next := calls[0], Step(enabled, sessions, calls[0]).sessions;
      ClockedBound(calls, now, until);
      SurvivesExactly(d, enabled, sessions, c, conn, since, now);
      if Holds(d, next, conn, since) {
        HeldThroughoutExactly(d, enabled, next, calls[1..], conn, since, After(c, now), until);
      }
    }
  }

  lemma {:induction false} ClockedBound(calls: seq<Call>, now: nat, until: nat)
    requires Clocked(calls, now, until)
    ensures now <= until && (calls != [] ==> At(calls[0], now) <= until)
    decreases calls
  {
    if calls != [] { ClockedBound(calls[1..], After(calls[0], now), until); }
  }

  // ----- What a lost stamp costs

  /** `second` is held back no more, after `between`, in which nothing more is lost. */
  ghost predicate Comes(d: Debounce, enabled: bool, sessions: Sessions, between: seq<Call>, second: Call, conn: nat,
                        since: nat, now: nat)
  {
    && !second.Retain? && second.check <= second.stamp && Clocked(between, now, second.check)
    && Unlost(d, enabled, sessions, between, conn, now, since + REPUBLISH_RESTART_MIN_INTERVAL)
    && Triggers(d, enabled, Reached(enabled, sessions, between), second, conn)
  }

  /** Whatever comes next, what `d` holds back comes only after the window opened at `since`. */
  ghost predicate Spaces(d: Debounce, enabled: bool, sessions: Sessions, conn: nat, since: nat, now: nat) {
    forall between, second | Comes(d, enabled, sessions, between, second, conn, since, now) ::
      second.check >= since + REPUBLISH_RESTART_MIN_INTERVAL
  }

  lemma ComesAtOnce(d: Debounce, sessions: Sessions, second: Call, conn: nat, since: nat, now: nat)
    requires Triggers(d, true, sessions, second, conn) && now <= second.check <= second.stamp
    ensures Comes(d, true, sessions, [], second, conn, since, now)
  {
  }

  lemma ComesAfterOne(d: Debounce, sessions: Sessions, first: Call, second: Call, conn: nat, since: nat, now: nat)
    requires !first.Retain? && !second.Retain?
    requires Timely(first, now) && first.stamp <= second.check <= second.stamp
    requires conn !in sessions && Triggers(d, true, Step(true, sessions, first).sessions, second, conn)
    ensures Comes(d, true, sessions, [first], second, conn, since, now)
  {
    var next := Step(true, sessions, first).sessions;
    assert [first][1..] == [];
    assert Reached(true, sessions, [first]) == Reached(true, next, []) == next;
    assert Clocked([], first.stamp, second.check);
  }

  /** With no stamp, what `d` holds back can come at any moment. */
  lemma UnstampedComes(d: Debounce, sessions: Sessions, conn: nat, since: nat, now: nat)
    requires conn in sessions ==>
               && sessions[conn].stream.Named?
               && (d.OfRestarts? ==> sessions[conn].restartedAt.None?)
               && (d.OfSwitches? ==> sessions[conn].lastSwitchAt.None?)
    ensures exists between, second :: Comes(d, true, sessions, between, second, conn, since, now) && second.check == now
  {
    var a, b := Named(0), Named(1);
    if conn in sessions {
      var s := sessions[conn];
      var second := match d
        case OfRestarts => Ensure(conn, s.stream, s.generation + 1, true, now, now)
        case OfSwitches => Ensure(conn, if s.stream == a then b else a, 0, true, now, now);
      ComesAtOnce(d, sessions, second, conn, since, now);
    } else {
      var first := match d
        case OfRestarts => Frame(conn, a, 0, 0, true, now, now, now)
        case OfSwitches => Ensure(conn, a, 0, true, now, now);
      var second := Ensure(conn, if d.OfRestarts? then a else b, 1, true, now, now);
      ComesAfterOne(d, sessions, first, second, conn, since, now);
    }
  }

  /** Inside the window, with outputs enabled, a call leaves the debounce in force for every continuation exactly when
      it does not lose the stamp: the condition of `DebouncedAreSpaced` shuts out nothing that would have been safe. */
  lemma LossExactly(d: Debounce, sessions: Sessions, c: Call, conn: nat, since: nat, now: nat)
    requires Holds(d, sessions, conn, since) && since <= now && Timely(c, now)
    requires After(c, now) < since + REPUBLISH_RESTART_MIN_INTERVAL
    ensures Spaces(d, true, Step(true, sessions, c).sessions, conn, since, After(c, now))
            <==> !Loses(d, true, sessions, c, conn)
  {
    var next, t := Step(true, sessions, c).sessions, After(c, now);
    SurvivesExactly(d, true, sessions, c, conn, since, now);
    if Loses(d, true, sessions, c, conn) {
      UnstampedComes(d, next, conn, since, t);
    } else {
      forall between, second | Comes(d, true, next, between, second, conn, since, t)
        ensures second.check >= since + REPUBLISH_RESTART_MIN_INTERVAL
      {
        UnlostRunIsGuarded(d, true, next, between, conn, since, t, second.check);
        if Holds(d, Reached(true, next, between), conn, since) {
          HeldBack(d, true, Reached(true, next, between), second, conn, since);
        }
      }
    }
  }

  // ----- How many restarts a span can hold

  /** No call loses a restart stamp that is still recent. */
  predicate StampsKept(enabled: bool, sessions: Sessions, calls: seq<Call>, conn: nat, now: nat)
    decreases calls
  {
    calls == [] ||
    var c := calls[0];
    && (conn in sessions && Recent(sessions[conn].restartedAt, At(c, now)) ==>
          !Loses(OfRestarts, enabled, sessions, c, conn))
    && StampsKept(enabled, Step(enabled, sessions, c).sessions, calls[1..], conn, After(c, now))
  }

  lemma {:induction false} GuardedRestartsAreFew(enabled: bool, sessions: Sessions, calls: seq<Call>, conn: nat,
                                                 since: nat, now: nat, until: nat)
    requires Guarded(OfRestarts, sessions, conn, since, now) && since <= now && Clocked(calls, now, until)
    requires StampsKept(enabled, sessions, calls, conn, now)
    ensures since + REPUBLISH_RESTART_MIN_INTERVAL * RestartCount(enabled, sessions, calls, conn) <= until
    decreases calls
  {
    ClockedBound(calls, now, until);
    if calls != [] {
      var c, next := calls[0], Step(enabled, sessions, calls[0]).sessions;
      var since' := since;
      if Restarts(enabled, sessions, c, conn) {
        if Holds(OfRestarts, sessions, conn, since) { HeldBack(OfRestarts, enabled, sessions, c, conn, since); }
        StartStamps(OfRestarts, enabled, sessions, c, conn);
        since' := c.stamp;
      } else if At(c, now) < since + REPUBLISH_RESTART_MIN_INTERVAL {
        SurvivesExactly(OfRestarts, enabled, sessions, c, conn, since, now);
      }
      GuardedRestartsAreFew(enabled, next, calls[1..], conn, since', After(c, now), until);
    }
  }

  /** A span of `t` milliseconds in which no recent stamp is lost holds at most `1 + t / 2000` restarts. */
  lemma {:induction false} RestartsAreFew(enabled: bool, sessions: Sessions, calls: seq<Call>, conn: nat, now: nat,
                                          until: nat)
    requires Clocked(calls, now, until) && StampsKept(enabled, sessions, calls, conn, now)
    ensures now + REPUBLISH_RESTART_MIN_INTERVAL * (RestartCount(enabled, sessions, calls, conn) - 1) <= until
    decreases calls
  {
    ClockedBound(calls, now, until);
    if calls != [] {
      var c, next := calls[0], Step(enabled, sessions, calls[0]).sessions;
      if Restarts(enabled, sessions, c, conn) {
        StartStamps(OfRestarts, enabled, sessions, c, conn);
        GuardedRestartsAreFew(enabled, next, calls[1..], conn, c.stamp, c.stamp, until);
      } else {
        RestartsAreFew(enabled, next, calls[1..], conn, After(c, now), until);
      }
    }
  }

  // ----- Two ways around

  /** A connection whose frames go to another stream and back restarts its session four milliseconds after a restart. */
  lemma SwitchingEscapesTheGuard(sessions: Sessions, conn: nat, a: StreamId, b: StreamId, g: nat, t: nat)
    requires a != b && a.Named? && b.Named? && Restarts(true, sessions, Ensure(conn, a, g, true, t, t), conn)
    ensures var s1 := Step(true, sessions, Ensure(conn, a, g, true, t, t)).sessions;
            var s2 := Step(true, s1, Frame(conn, b, g, 0, true, t + 1, t + 1, t + 1)).sessions;
            var s3 := Step(true, s2, Frame(conn, a, g, 0, true, t + 2, t + 2, t + 2)).sessions;
            Restarts(true, s3, Ensure(conn, a, g + 1, true, t + 4, t + 4), conn)
  {
  }

  /** A publish command that restarts the session forgets the stream change before it, so a second change comes two
      milliseconds after the first. */
  lemma RestartForgetsTheSwitch(sessions: Sessions, conn: nat, a: StreamId, b: StreamId, t: nat)
    requires a != b && a.Named? && b.Named? && conn in sessions && sessions[conn].stream == a
    ensures var c0 := Frame(conn, b, 1, 0, true, t, t, t);
            var c1, c2 := Ensure(conn, b, 2, true, t + 1, t + 1), Ensure(conn, a, 3, true, t + 2, t + 2);
            var s1 := Step(true, sessions, c0).sessions;
            var s2 := Step(true, s1, c1).sessions;
            && Step(true, sessions, c0).event == Switched && Step(true, s1, c1).event == Restarted
            && Step(true, s2, c2).event == Switched
  {
  }
}
