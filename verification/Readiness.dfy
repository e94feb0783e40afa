/**
 The persistent epoll set: registrations kept across ticks and brought in line with the server by `sync`, against a
 kernel set that silently forgets a descriptor when it is closed.
 */
module Readiness {
  import opened Basics

  /** `connId` is `None` for a listener. `writable`: EPOLLOUT beside EPOLLIN. */
  datatype Interest = Interest(connId: Option<nat>, writable: bool)

  /** `fd` is `None` once the descriptor is closed (negative in the source). */
  datatype Conn = Conn(fd: Option<nat>, connId: nat, pendingBytes: nat)

  datatype Server = Server(maxConnections: nat, listeners: seq<nat>, connections: seq<Conn>)

  type Owners = map<nat, Option<nat>>

  function AtCap(server: Server): bool {
    server.maxConnections > 0 && |server.connections| >= server.maxConnections
  }

  // ----- The set rebuilt from scratch

  predicate Listens(server: Server, fd: nat) {
    !AtCap(server) && fd in server.listeners
  }

  function Serving(conns: seq<Conn>): set<nat> {
    set c | c in conns && c.fd.Some? :: c.fd.value
  }

  /** `want` is what polling everything afresh would watch: every listener unless at the cap, and every connection that
      has a descriptor, for writing too while it has bytes queued. */
  ghost predicate IsDesired(server: Server, want: map<nat, Interest>) {
    && (forall fd :: fd in want <==> Listens(server, fd) || fd in Serving(server.connections))
    && (forall c | c in server.connections && c.fd.Some? ::
          want[c.fd.value] == Interest(Some(c.connId), c.pendingBytes > 0))
    && (forall fd | Listens(server, fd) :: want[fd] == Interest(None, false))
  }

  /** The server's lists agree with who holds which descriptor; no two connections share one. */
  ghost predicate Matches(server: Server, open: Owners) {
    && (forall fd | fd in server.listeners :: fd in open && open[fd] == None)
    && (forall c | c in server.connections && c.fd.Some? :: c.fd.value in open && open[c.fd.value] == Some(c.connId))
    && (forall i, j | 0 <= i < j < |server.connections| && server.connections[i].fd.Some? ::
          server.connections[i].fd != server.connections[j].fd)
  }

  method WantListeners(server: Server) returns (want: map<nat, Interest>)
    ensures forall fd :: fd in want <==> Listens(server, fd)
    ensures forall fd | fd in want :: want[fd] == Interest(None, false)
  {
    want := map[];
    if !AtCap(server) {
      for i := 0 to |server.listeners|
        invariant want.Keys == set fd | fd in server.listeners[..i]
        invariant forall fd | fd in want :: want[fd] == Interest(None, false)
      {
        want := want[server.listeners[i] := Interest(None, false)];
      }
    }
  }

  /** The listeners and the first `i` connections are in. */
  ghost predicate Built(server: Server, i: nat, want: map<nat, Interest>)
    requires i <= |server.connections|
  {
    && (forall fd :: fd in want <==> Listens(server, fd) || fd in Serving(server.connections[..i]))
    && (forall fd | Listens(server, fd) :: want[fd] == Interest(None, false))
    && (forall c | c in server.connections[..i] && c.fd.Some? ::
          want[c.fd.value] == Interest(Some(c.connId), c.pendingBytes > 0))
  }

  lemma ServingNext(conns: seq<Conn>, i: nat)
    requires i < |conns|
    ensures Serving(conns[..i + 1]) == Serving(conns[..i]) + if conns[i].fd.Some? then {conns[i].fd.value} else {}
  {
    var a, b := conns[..i], conns[..i + 1];
    assert b == a + [conns[i]];
    forall c | c in a && c.fd.Some? ensures c.fd.value in Serving(b) { assert c in b; }
    assert conns[i] in b;
  }

  lemma BuiltNext(server: Server, open: Owners, i: nat, want: map<nat, Interest>)
    requires Matches(server, open) && i < |server.connections| && Built(server, i, want)
    ensures var c := server.connections[i];
            Built(server, i + 1,
                  if c.fd.Some? then want[c.fd.value := Interest(Some(c.connId), c.pendingBytes > 0)] else want)
  {
    var conns := server.connections;
    ServingNext(conns, i);
    assert conns[i] in conns;
    forall c | c in conns[..i + 1] ensures c == conns[i] || (c in conns[..i] && (c.fd.Some? ==> c.fd != conns[i].fd)) {
      var k :| 0 <= k < i + 1 && conns[..i + 1][k] == c;
      if k < i { assert conns[..i][k] == c && conns[k].fd.Some? ==> conns[k].fd != conns[i].fd; }
    }
  }

  method BuildDesired(server: Server, ghost open: Owners) returns (want: map<nat, Interest>)
    requires Matches(server, open)
    ensures IsDesired(server, want)
  {
    want := WantListeners(server);
    for i := 0 to |server.connections|
      invariant Built(server, i, want)
    {
      BuiltNext(server, open, i, want);
      var c := server.connections[i];
      if c.fd.Some? { want := want[c.fd.value := Interest(Some(c.connId), c.pendingBytes > 0)]; }
    }
    assert server.connections[..|server.connections|] == server.connections;
  }

  // ----- The incremental set

  datatype CtlResult = Done | NotFound | Exists | Failed

  /** Events the kernel watches for, by descriptor; true is EPOLLOUT too. */
  type Watched = map<nat, bool>

  function Watch(want: map<nat, Interest>): Watched {
    map fd | fd in want :: want[fd].writable
  }

  /** Registered, forgotten by the kernel, and open again under the owner it was registered for. */
  ghost function Missed(registered: map<nat, Interest>, kernel: Watched, open: Owners): set<nat> {
    set fd | fd in registered && fd !in kernel && fd in open && open[fd] == registered[fd].connId
  }

  /** The kernel watches only what is registered, for the registered owner and events. */
  ghost predicate Backed(registered: map<nat, Interest>, kernel: Watched, open: Owners) {
    forall fd | fd in kernel ::
      fd in registered && fd in open && registered[fd] == Interest(open[fd], kernel[fd])
  }

  /** There is one such set. */
  lemma DesiredIsUnique(server: Server, a: map<nat, Interest>, b: map<nat, Interest>)
    requires IsDesired(server, a) && IsDesired(server, b)
    ensures a == b
  {
    forall fd | fd in a ensures fd in b && a[fd] == b[fd] {
      if fd in Serving(server.connections) {
        var c :| c in server.connections && c.fd == Some(fd);
        assert a[fd] == b[fd] == Interest(Some(c.connId), c.pendingBytes > 0);
      }
    }
  }

  lemma DesiredIsOpen(server: Server, want: map<nat, Interest>, open: Owners)
    requires Matches(server, open) && IsDesired(server, want)
    ensures forall fd | fd in want :: fd in open && want[fd].connId == open[fd]
  {
  }

  lemma StaleDropped(registered: map<nat, Interest>, kernel: Watched, open: Owners, wanted: set<nat>)
    requires Backed(registered, kernel, open)
    ensures var stale := registered.Keys - wanted;
            && Backed(registered - stale, kernel - stale, open)
            && Missed(registered - stale, kernel - stale, open) == Missed(registered, kernel, open) * wanted
  {
  }

  lemma OneSynced(registered: map<nat, Interest>, kernel: Watched, open: Owners, fd: nat, want: Interest)
    requires Backed(registered, kernel, open) && fd in open && open[fd] == want.connId
    ensures var same := fd in registered && registered[fd] == want;
            var kernel' := if same then kernel else kernel[fd := want.writable];
            && Backed(registered[fd := want], kernel', open)
            && Missed(registered[fd := want], kernel', open)
               == Missed(registered, kernel, open) - if same then {} else {fd}
  {
  }

  /** Part-way through bringing `todo` in line, from `regs` and `watched`. */
  ghost predicate Progress(regs: map<nat, Interest>, watched: Watched, open: Owners, want: map<nat, Interest>,
                           todo: set<nat>, registered: map<nat, Interest>, kernel: Watched)
    requires todo <= want.Keys
  {
    && Backed(registered, kernel, open)
    && registered.Keys == regs.Keys + (want.Keys - todo) && regs.Keys <= want.Keys
    && (forall fd | fd in registered :: registered[fd] == if fd in todo then regs[fd] else want[fd])
    && Missed(registered, kernel, open) ==
       set fd | fd in Missed(regs, watched, open) && (fd in todo || regs[fd] == want[fd])
  }

  lemma ProgressMade(regs: map<nat, Interest>, watched: Watched, open: Owners, want: map<nat, Interest>, todo: set<nat>,
                     registered: map<nat, Interest>, kernel: Watched, fd: nat)
    requires fd in todo && todo <= want.Keys && Progress(regs, watched, open, want, todo, registered, kernel)
    requires fd in open && open[fd] == want[fd].connId
    ensures var same := fd in registered && registered[fd] == want[fd];
            var kernel' := if same then kernel else kernel[fd := want[fd].writable];
            Progress(regs, watched, open, want, todo - {fd}, registered[fd := want[fd]], kernel')
  {
    OneSynced(registered, kernel, open, fd, want[fd]);
  }

  /** When every registration is open under its owner, the kernel watches exactly them unless it misses some. */
  lemma NothingMissed(registered: map<nat, Interest>, kernel: Watched, open: Owners)
    requires Backed(registered, kernel, open)
    requires forall fd | fd in registered :: fd in open && registered[fd].connId == open[fd]
    ensures kernel == Watch(registered) <==> Missed(registered, kernel, open) == {}
  {
    if Missed(registered, kernel, open) == {} {
      forall fd | fd in registered ensures fd in kernel && kernel[fd] == registered[fd].writable {
        assert fd !in Missed(registered, kernel, open);
      }
    }
  }

  datatype Action =
    | Take(fd: nat, owner: Option<nat>)
    | Give(fd: nat)
    | Resync(server: Server, faults: set<nat>)

  /** The descriptors a set built afresh would watch. */
  function Wanted(server: Server): set<nat> {
    Serving(server.connections) + if AtCap(server) then {} else set fd | fd in server.listeners
  }

  /** The holdings a sync may leave registered: those it wants, and, when it can fail part-way, those registered before
      on a descriptor it wants. */
  ghost function Seen(server: Server, faults: set<nat>, seen: set<(nat, Option<nat>)>, open: Owners)
    : set<(nat, Option<nat>)>
  {
    (set fd | fd in Wanted(server) && fd in open :: (fd, open[fd]))
    + if faults !! Wanted(server) then {} else set p | p in seen && p.0 in Wanted(server)
  }

  /** Every registration is a wanted one, or stands as before on a wanted descriptor. */
  ghost predicate Carried(before: map<nat, Interest>, want: map<nat, Interest>, after: map<nat, Interest>) {
    forall fd | fd in after :: fd in want && (after[fd] == want[fd] || (fd in before && after[fd] == before[fd]))
  }

  lemma SeenCovers(server: Server, faults: set<nat>, seen: set<(nat, Option<nat>)>, open: Owners,
                   before: map<nat, Interest>, want: map<nat, Interest>, after: map<nat, Interest>, ok: bool)
    requires want.Keys == Wanted(server) && (faults !! want.Keys ==> ok) && (ok ==> after == want)
    requires forall fd | fd in want :: fd in open && want[fd].connId == open[fd]
    requires forall fd | fd in before :: (fd, before[fd].connId) in seen
    requires Carried(before, want, after)
    ensures forall fd | fd in after :: (fd, after[fd].connId) in Seen(server, faults, seen, open)
  {
    forall fd | fd in after ensures (fd, after[fd].connId) in Seen(server, faults, seen, open) {
      if after[fd] == want[fd] {
        assert fd in Wanted(server) && fd in open;
      } else {
        assert (fd, before[fd].connId) in seen;
      }
    }
  }

  /** No owner takes back a descriptor that a sync may have left registered for it. */
  ghost predicate Legal(open: Owners, seen: set<(nat, Option<nat>)>, actions: seq<Action>)
    decreases actions
  {
    actions == [] ||
    match actions[0]
    case Take(fd, owner) =>
      && fd !in open && (fd, owner) !in seen
      && Legal(open[fd := owner], seen, actions[1..])
    case Give(fd) => fd in open && Legal(open - {fd}, seen, actions[1..])
    case Resync(server, faults) =>
      && Matches(server, open)
      && Legal(open, Seen(server, faults, seen, open), actions[1..])
  }

  class EpollReadiness {
    var registered: map<nat, Interest>
    /** The kernel's side of the epoll instance, and who holds which descriptor. */
    var kernel: Watched
    ghost var open: Owners
    /** The holdings that may be registered. */
    ghost var seen: set<(nat, Option<nat>)>

    ghost predicate Valid()
      reads this
    {
      && Backed(registered, kernel, open)
      && (forall fd | fd in registered :: (fd, registered[fd].connId) in seen)
    }

    constructor ()
      ensures Valid() && registered == map[] && kernel == map[] && open == map[] && seen == {}
    {
      registered, kernel, open, seen := map[], map[], map[], {};
    }

    /** A listener is bound or a connection accepted. */
    ghost method Open(fd: nat, owner: Option<nat>)
      requires Valid() && fd !in open
      modifies `open
      ensures Valid() && open == old(open)[fd := owner]
      ensures var back := if fd in registered && registered[fd].connId == owner then {fd} else {};
              Missed(registered, kernel, open) == Missed(registered, kernel, old(open)) + back
    {
      open := open[fd := owner];
    }

    /** Closing a descriptor removes it from the kernel's set; nothing tells the registrations. */
    method Close(fd: nat)
      requires Valid() && fd in open
      modifies `open, `kernel
      ensures Valid() && open == old(open) - {fd} && kernel == old(kernel) - {fd}
      ensures Missed(registered, kernel, open) == Missed(registered, old(kernel), old(open)) - {fd}
    {
      kernel := kernel - {fd};
      open := open - {fd};
    }

    method CtlAdd(fd: nat, writable: bool, fault: bool) returns (r: CtlResult)
      modifies `kernel
      ensures r == if fd in old(kernel) then Exists else if fault then Failed else Done
      ensures kernel == if r.Done? then old(kernel)[fd := writable] else old(kernel)
    {
      if fd in kernel { return Exists; }
      if fault { return Failed; }
      kernel := kernel[fd := writable];
      r := Done;
    }

    method CtlMod(fd: nat, writable: bool, fault: bool) returns (r: CtlResult)
      modifies `kernel
      ensures r == if fd !in old(kernel) then NotFound else if fault then Failed else Done
      ensures kernel == if r.Done? then old(kernel)[fd := writable] else old(kernel)
    {
      if fd !in kernel { return NotFound; }
      if fault { return Failed; }
      kernel := kernel[fd := writable];
      r := Done;
    }

    /** One descriptor brought in line. */
    method SyncOne(fd: nat, want: Interest, fault: bool) returns (ok: bool)
      modifies `registered, `kernel
      ensures !fault ==> ok
      ensures !ok ==> registered == old(registered) && kernel == old(kernel)
      ensures ok ==> registered == old(registered)[fd := want]
      ensures ok ==> kernel == if fd in old(registered) && old(registered)[fd] == want then old(kernel)
                               else old(kernel)[fd := want.writable]
    {
      if fd in registered {
        if registered[fd] == want { return true; }
        var r := CtlMod(fd, want.writable, fault);
        if r.NotFound? { r := CtlAdd(fd, want.writable, fault); }
        if !r.Done? { return false; }
      } else {
        var r := CtlAdd(fd, want.writable, fault);
        if r.Exists? { r := CtlMod(fd, want.writable, fault); }
        if !r.Done? { return false; }
      }
      registered := registered[fd := want];
      ok := true;
    }

    /** Drops every registration that is no longer wanted, from the kernel too; errors of that are ignored. */
    method DropStale(want: map<nat, Interest>)
      modifies `registered, `kernel
      ensures registered == old(registered) - (old(registered.Keys) - want.Keys)
      ensures kernel == old(kernel) - (old(registered.Keys) - want.Keys)
    {
      var stale := registered.Keys - want.Keys;
      var todo := stale;
      while todo != {}
        invariant todo <= stale
        invariant registered == old(registered) - (stale - todo) && kernel == old(kernel) - (stale - todo)
        decreases todo
      {
        var fd :| fd in todo;
        assert stale - (todo - {fd}) == (stale - todo) + {fd};
        registered, kernel := registered - {fd}, kernel - {fd};
        todo := todo - {fd};
      }
      assert stale - todo == stale;
    }

    /** Every wanted descriptor in turn, until one fails. */
    method SyncWanted(want: map<nat, Interest>, faults: set<nat>) returns (ok: bool)
      requires Backed(registered, kernel, open) && registered.Keys <= want.Keys
      requires forall fd | fd in want :: fd in open && want[fd].connId == open[fd]
      modifies `registered, `kernel
      ensures Backed(registered, kernel, open) && (faults !! want.Keys ==> ok)
      ensures Missed(registered, kernel, open) <= Missed(old(registered), old(kernel), open)
      ensures forall fd | fd in registered :: fd in want && (registered[fd] == want[fd] || fd in old(registered))
      ensures forall fd | fd in registered && registered[fd] != want[fd] :: registered[fd] == old(registered)[fd]
      ensures ok ==> registered == want
      ensures ok ==> Missed(registered, kernel, open) ==
                       set fd | fd in Missed(old(registered), old(kernel), open) && old(registered)[fd] == want[fd]
    {
      ghost var regs, watched := registered, kernel;
      var todo := want.Keys;
      while todo != {}
        invariant todo <= want.Keys && Progress(regs, watched, open, want, todo, registered, kernel)
        decreases todo
      {
        var fd :| fd in todo;
        ghost var regs', watched' := registered, kernel;
        ok := SyncOne(fd, want[fd], fd in faults);
        if !ok { return; }
        ProgressMade(regs, watched, open, want, todo, regs', watched', fd);
        todo := todo - {fd};
      }
      assert registered == want;
      ok := true;
    }

    /** Unwanted registrations out, wanted ones in line. */
    method Align(want: map<nat, Interest>, faults: set<nat>) returns (ok: bool)
      requires Backed(registered, kernel, open)
      requires forall fd | fd in want :: fd in open && want[fd].connId == open[fd]
      modifies `registered, `kernel
      ensures Backed(registered, kernel, open) && (faults !! want.Keys ==> ok)
      ensures Missed(registered, kernel, open) <= Missed(old(registered), old(kernel), open)
      ensures Carried(old(registered), want, registered)
      ensures ok ==> registered == want
      ensures ok ==> Missed(registered, kernel, open) ==
                       set fd | fd in Missed(old(registered), old(kernel), open) && fd in want
                                && old(registered)[fd] == want[fd]
    {
      StaleDropped(registered, kernel, open, want.Keys);
      DropStale(want);
      ok := SyncWanted(want, faults);
    }

    /** On success the registrations are exactly the wanted ones; the kernel watches them all but for descriptors that
        were missed before and are wanted just as they were registered. A failure part-way adds no missed one. */
    method Sync(server: Server, faults: set<nat>) returns (ok: bool)
      requires Valid() && Matches(server, open)
      modifies `registered, `kernel, `seen
      ensures Valid() && (faults !! Wanted(server) ==> ok) && seen == Seen(server, faults, old(seen), open)
      ensures forall fd | fd in registered :: fd in open
      ensures Missed(registered, kernel, open) <= Missed(old(registered), old(kernel), open)
      ensures ok ==> IsDesired(server, registered)
      ensures ok ==> Missed(registered, kernel, open) ==
                       set fd | fd in Missed(old(registered), old(kernel), open) && fd in registered
                                && old(registered)[fd] == registered[fd]
      ensures ok ==> (kernel == Watch(registered) <==> Missed(registered, kernel, open) == {})
    {
      var want := BuildDesired(server, open);
      assert want.Keys == Wanted(server);
      DesiredIsOpen(server, want, open);
      ok := Align(want, faults);
      if ok { NothingMissed(want, kernel, open); }
      SeenCovers(server, faults, seen, open, old(registered), want, registered, ok);
      seen := Seen(server, faults, seen, open);
    }

    /** After any history of openings, closings and syncs, failed ones included, in which no owner takes back a
        descriptor that a sync may have left registered for it, a sync that succeeds leaves the kernel watching exactly
        what a set built afresh would. */
    method Replay(actions: seq<Action>) returns (ok: bool)
      requires Valid() && Missed(registered, kernel, open) == {} && Legal(open, seen, actions)
      modifies this
      ensures Valid() && Missed(registered, kernel, open) == {}
      ensures actions != [] && actions[|actions| - 1].Resync? && ok ==>
                IsDesired(actions[|actions| - 1].server, registered) && kernel == Watch(registered)
    {
      ok := false;
      for i := 0 to |actions|
        invariant Valid() && Missed(registered, kernel, open) == {} && Legal(open, seen, actions[i..])
        invariant i > 0 && actions[i - 1].Resync? && ok ==>
                    IsDesired(actions[i - 1].server, registered) && kernel == Watch(registered)
      {
        assert actions[i..][1..] == actions[i + 1..];
        match actions[i]
        case Take(fd, owner) => Open(fd, owner);
        case Give(fd) => Close(fd);
        case Resync(server, faults) => ok := Sync(server, faults);
      }
    }
  }

  /** A listener, bound and registered. */
  method BoundAndSynced(fd: nat) returns (epoll: EpollReadiness)
    ensures fresh(epoll) && epoll.Valid() && epoll.open == map[fd := None]
    ensures fd in epoll.registered && epoll.registered[fd] == Interest(None, false)
  {
    epoll := new EpollReadiness();
    epoll.Open(fd, None);
    var ok := epoll.Sync(Server(0, [fd], []), {});
    assert Listens(Server(0, [fd], []), fd);
  }

  /** That condition is needed: a listener closed and bound again on the same descriptor is taken for the old one. */
  method RebindIsMissed(fd: nat) returns (epoll: EpollReadiness, server: Server, ok: bool)
    ensures epoll.Valid() && Matches(server, epoll.open) && ok && IsDesired(server, epoll.registered)
    ensures fd in epoll.registered && fd !in epoll.kernel
  {
    server := Server(0, [fd], []);
    epoll := BoundAndSynced(fd);
    epoll.Close(fd);
    epoll.Open(fd, None);
    assert fd in Missed(epoll.registered, epoll.kernel, epoll.open) && Listens(server, fd);
    ok := epoll.Sync(server, {});
  }
}
