/** The reuse-or-host protocol by which independent processes converge on one
    plans server per repository: a record file, an exclusive lock file and a
    double-checked health probe. Every call of `ensureServer` is an actor, and each
    read, probe, lock attempt, write and unlock is one atomic step. */
module ServerLifecycle {
  import opened Common

  /** One hosted server, standing for its pid, port and secret token. A token is
      never reused, so every `listen` takes the next number. */
  type Server = nat
  type Call = nat
  type Rec = Option<Server>

  datatype Outcome = Reused(server: Server) | Hosted(server: Server) | Rejected

  /** Where a call stands. `owns` tells a lock file descriptor from the REUSED marker. */
  datatype Phase =
    | Start
    | FastCheck(rec: Rec)
    | Acquire
    | WaitRead
    | WaitCheck(rec: Rec)
    | WaitAge
    | ReusedRead
    | ReusedCheck(rec: Rec)
    | InnerRead(owns: bool)
    | InnerCheck(rec: Rec, owns: bool)
    | Reap(owns: bool)
    | Host(owns: bool)
    | Publish(server: Server, owns: bool)
    | Release(owns: bool, outcome: Outcome)
    | Done(outcome: Outcome)
    | Crashed

  datatype World = World(
    record: Rec,
    lock: Option<Call>,
    live: set<Server>,
    next: Server,
    calls: map<Call, Phase>)

  datatype Action =
    | Begin(c: Call)
    | Advance(c: Call, answered: bool)  // the call's next step; `answered`: the probe beat its timeout
    | BreakLock(c: Call)                // a waiter unlinks a lock it takes for stale or overdue
    | LockFails(c: Call)                // creating the lock file fails, and not because it exists
    | RecordStays(c: Call)              // removing a record fails, silently
    | FactoryFails(c: Call)             // creating the server throws
    | WriteFails(c: Call)               // writing the record throws; the server already listens
    | LockStays(c: Call)                // unlinking the own lock fails, silently
    | Crash(c: Call)                    // the process dies inside a call that hosts nothing
    | Exit(s: Server)                   // a server stops answering as its process ends
    | CleansUp                          // a process that hosts, or hosted once, ends: unlinks any record

  predicate Live(w: World, r: Rec) { r.Some? && r.value in w.live }

  function To(w: World, c: Call, p: Phase): World { w.(calls := w.calls[c := p]) }

  /** One step of call `c` that the code takes by itself. */
  function AdvanceCall(w: World, c: Call, answered: bool): Option<World>
    requires c in w.calls
  {
    match w.calls[c]
    case Start => Some(To(w, c, FastCheck(w.record)))
    case FastCheck(r) =>
      Some(To(w, c, if answered && Live(w, r) then Done(Reused(r.value)) else Acquire))
    case Acquire =>
      if w.lock.None? then Some(To(w.(lock := Some(c)), c, InnerRead(true)))
      else Some(To(w, c, WaitRead))
    case WaitRead => Some(To(w, c, WaitCheck(w.record)))
    case WaitCheck(r) =>
      Some(To(w, c, if answered && Live(w, r) then ReusedRead else WaitAge))
    case WaitAge => Some(To(w, c, Acquire))
    case ReusedRead => Some(To(w, c, ReusedCheck(w.record)))
    case ReusedCheck(r) =>
      Some(To(w, c, if answered && Live(w, r) then Done(Reused(r.value)) else InnerRead(false)))
    case InnerRead(owns) => Some(To(w, c, InnerCheck(w.record, owns)))
    case InnerCheck(r, owns) =>
      Some(To(w, c, if answered && Live(w, r) then Release(owns, Reused(r.value)) else Reap(owns)))
    case Reap(owns) => Some(To(w.(record := None), c, Host(owns)))
    case Host(owns) =>
      Some(To(w.(live := w.live + {w.next}, next := w.next + 1), c, Publish(w.next, owns)))
    case Publish(s, owns) => Some(To(w.(record := Some(s)), c, Release(owns, Hosted(s))))
    case Release(_, outcome) => Some(To(w.(lock := None), c, Done(outcome)))
    case Done(_) => None
    case Crashed => None
  }

  /** The call is under way and its process hosts no server through it. */
  predicate HostsNothing(p: Phase) {
    !p.Publish? && !p.Done? && (p.Release? ==> p.outcome.Reused?)
  }

  /** The world after an action, or None when the action cannot happen. */
  function Next(w: World, a: Action): Option<World> {
    match a
    case Begin(c) => if c in w.calls then None else Some(To(w, c, Start))
    case Advance(c, answered) => if c in w.calls then AdvanceCall(w, c, answered) else None
    case BreakLock(c) =>
      if c in w.calls && w.calls[c].WaitAge? then Some(To(w.(lock := None), c, Acquire)) else None
    case LockFails(c) =>
      if c in w.calls && w.calls[c].Acquire? then Some(To(w, c, Done(Rejected))) else None
    case RecordStays(c) =>
      if c in w.calls && w.calls[c].Reap? then Some(To(w, c, Host(w.calls[c].owns))) else None
    case FactoryFails(c) =>
      if c in w.calls && w.calls[c].Host? then Some(To(w, c, Release(w.calls[c].owns, Rejected))) else None
    case WriteFails(c) =>
      if c in w.calls && w.calls[c].Publish? then Some(To(w, c, Release(w.calls[c].owns, Rejected))) else None
    case LockStays(c) =>
      if c in w.calls && w.calls[c].Release? then Some(To(w, c, Done(w.calls[c].outcome))) else None
    case Crash(c) =>
      if c in w.calls && HostsNothing(w.calls[c]) then Some(To(w, c, Crashed)) else None
    case Exit(s) => if s in w.live then Some(w.(live := w.live - {s})) else None
    case CleansUp => Some(w.(record := None))
  }

  /** The world after a run of actions, or None when some action was not possible. */
  function Exec(w: World, run: seq<Action>): Option<World>
    decreases |run|
  {
    if run == [] then Some(w)
    else match Next(w, run[0])
      case None => None
      case Some(w') => Exec(w', run[1..])
  }

  /** Earlier calls are over or crashed; a lock that lies about was left by one that
      crashed; and the record names a dead server, or the one live server there is. */
  ghost predicate Initial(w: World) {
    && (forall c :: c in w.calls ==> w.calls[c].Crashed?)
    && (w.lock.Some? ==> w.lock.value in w.calls)
    && (w.record.Some? ==> w.record.value < w.next)
    && (w.live == {} || (w.record.Some? && w.live == {w.record.value}))
  }

  // ---- the four hazards ----

  /** What the environment may do beyond ordinary scheduling, failures and crashes. The
      first four are the hazards; a lock that stays behind turns out to be none. A probe
      misses a live server when the record cannot be read or the answer is late or bad. */
  datatype Hazards = Hazards(liveBreaks: bool, exits: bool, misses: bool, writeFails: bool, lockStays: bool)

  predicate Calm(h: Hazards) { !h.liveBreaks && !h.exits && !h.misses && !h.writeFails }

  /** The lock file was left behind by a call that crashed or returned, or is gone. */
  predicate Orphaned(w: World) {
    w.lock.Some? ==> w.lock.value in w.calls && (w.calls[w.lock.value].Crashed? || w.calls[w.lock.value].Done?)
  }

  predicate Permits(h: Hazards, w: World, a: Action) {
    match a
    case Advance(_, answered) => answered || h.misses
    case BreakLock(_) => Orphaned(w) || h.liveBreaks
    case Exit(_) => h.exits
    case CleansUp => h.exits
    case WriteFails(_) => h.writeFails
    case LockStays(_) => h.lockStays
    case _ => true
  }

  predicate PermittedRun(h: Hazards, w: World, run: seq<Action>)
    decreases |run|
  {
    run != [] ==>
      && Permits(h, w, run[0])
      && (Next(w, run[0]).Some? ==> PermittedRun(h, Next(w, run[0]).value, run[1..]))
  }

  /** At most one server answers, and a finished call returned that very server,
      as the record names it. */
  ghost predicate Converged(w: World) {
    && (forall s, t :: s in w.live && t in w.live ==> s == t)
    && (forall c :: c in w.calls && w.calls[c].Done? && !w.calls[c].outcome.Rejected? ==>
          w.calls[c].outcome.server in w.live && w.record == Some(w.calls[c].outcome.server))
  }

  // ---- the invariant ----

  predicate Inside(p: Phase) {
    p.InnerRead? || p.InnerCheck? || p.Reap? || p.Host? || p.Publish? || p.Release?
  }

  /** A record value some call read: dead for good, or still the published one. */
  predicate Known(w: World, r: Rec) {
    r.Some? ==> r.value < w.next && (r.value in w.live ==> w.record == r)
  }

  predicate PhaseOk(w: World, p: Phase) {
    match p
    case FastCheck(r) => Known(w, r)
    case WaitCheck(r) => Known(w, r)
    case ReusedRead => Live(w, w.record)
    case ReusedCheck(r) => r == w.record && Live(w, r)
    case InnerRead(owns) => owns
    case InnerCheck(r, owns) => owns && r == w.record
    case Reap(owns) => owns && w.live == {}
    case Host(owns) => owns && w.live == {}
    case Publish(s, owns) => owns && w.live == {s} && !Live(w, w.record)
    case Release(owns, o) => owns && (o.Rejected? || (w.record == Some(o.server) && Live(w, w.record)))
    case Done(o) => o.Rejected? || (w.record == Some(o.server) && Live(w, w.record))
    case _ => true
  }

  /** How the owner of the lock can stand. */
  predicate Owns(h: Hazards, p: Phase) { Inside(p) || p.Crashed? || (h.lockStays && p.Done?) }

  /** The lock is held exactly by the one call inside, or was left behind. */
  ghost predicate LockOk(h: Hazards, w: World) {
    && (forall c :: c in w.calls && Inside(w.calls[c]) ==> w.lock == Some(c))
    && (w.lock.Some? ==> w.lock.value in w.calls && Owns(h, w.calls[w.lock.value]))
  }

  /** A live server is published, unless its host is just about to publish it. */
  predicate PublishedOk(w: World) {
    w.live != {} ==>
      || Live(w, w.record)
      || (w.lock.Some? && w.lock.value in w.calls && w.calls[w.lock.value].Publish?)
  }

  ghost predicate ServersOk(w: World) {
    && (forall s :: s in w.live ==> s < w.next)
    && (forall s, t :: s in w.live && t in w.live ==> s == t)
    && Known(w, w.record)
  }

  ghost predicate PhasesOk(w: World) {
    forall c :: c in w.calls ==> PhaseOk(w, w.calls[c])
  }

  ghost predicate Inv(h: Hazards, w: World) {
    ServersOk(w) && PhasesOk(w) && LockOk(h, w) && PublishedOk(w)
  }

  const CALM := Hazards(false, false, false, false, false)

  /** A step that only moves one call, neither into nor out of the lock. */
  lemma Moves(h: Hazards, w: World, c: Call, p: Phase)
    requires Inv(h, w) && PhaseOk(w, p)
    requires c in w.calls ==> !w.calls[c].Publish?
    requires Inside(p) ==> w.lock == Some(c)
    requires w.lock == Some(c) ==> Owns(h, p)
    ensures Inv(h, To(w, c, p))
  {
    var w' := To(w, c, p);
    assert forall d :: d in w'.calls ==> d == c || (d in w.calls && w'.calls[d] == w.calls[d]);
    forall d | d in w'.calls ensures PhaseOk(w', w'.calls[d]) { PhaseFrame(w, w', w'.calls[d]); }
  }

  /** Only a call that does not sit inside can pass the lock. */
  lemma Locks(h: Hazards, w: World, c: Call)
    requires Inv(h, w) && c in w.calls && w.calls[c].Acquire? && w.lock.None?
    ensures Inv(h, To(w.(lock := Some(c)), c, InnerRead(true)))
  {
    var w' := To(w.(lock := Some(c)), c, InnerRead(true));
    assert forall d :: d in w'.calls ==> d == c || (d in w.calls && w'.calls[d] == w.calls[d]);
    forall d | d in w.calls ensures PhaseOk(w', w.calls[d]) { PhaseFrame(w, w', w.calls[d]); }
  }

  lemma PhaseFrame(w: World, w': World, p: Phase)
    requires PhaseOk(w, p) && w.record == w'.record && w.live == w'.live && w.next == w'.next
    ensures PhaseOk(w', p)
  {
  }

  lemma Unlocks(h: Hazards, w: World, c: Call)
    requires Inv(h, w) && c in w.calls && w.calls[c].Release?
    ensures Inv(h, To(w.(lock := None), c, Done(w.calls[c].outcome)))
  {
    var w' := To(w.(lock := None), c, Done(w.calls[c].outcome));
    assert forall d :: d in w'.calls ==> d == c || (d in w.calls && w'.calls[d] == w.calls[d]);
    forall d | d in w.calls ensures PhaseOk(w', w.calls[d]) { PhaseFrame(w, w', w.calls[d]); }
  }

  lemma Breaks(h: Hazards, w: World, c: Call)
    requires Inv(h, w) && c in w.calls && w.calls[c].WaitAge? && Orphaned(w)
    ensures Inv(h, To(w.(lock := None), c, Acquire))
  {
    var w' := To(w.(lock := None), c, Acquire);
    assert forall d :: d in w'.calls ==> d == c || (d in w.calls && w'.calls[d] == w.calls[d]);
    forall d | d in w.calls ensures PhaseOk(w', w.calls[d]) { PhaseFrame(w, w', w.calls[d]); }
  }

  /** The call that owns the lock writes the record or starts a server. */
  lemma OwnerActs(h: Hazards, w: World, c: Call)
    requires Inv(h, w) && c in w.calls
    requires w.calls[c].Reap? || w.calls[c].Host? || w.calls[c].Publish?
    ensures Inv(h, AdvanceCall(w, c, true).value)
  {
    var w' := AdvanceCall(w, c, true).value;
    assert w.lock == Some(c) && w.calls[c].owns;
    forall d | d in w.calls && d != c ensures PhaseOk(w', w.calls[d]) {
      assert !Inside(w.calls[d]);
    }
    assert forall d :: d in w'.calls ==> d == c || (d in w.calls && w'.calls[d] == w.calls[d]);
  }

  lemma InitialInv(h: Hazards, w: World)
    requires Initial(w)
    ensures Inv(h, w)
  {
  }

  lemma AdvanceInv(h: Hazards, w: World, c: Call)
    requires Inv(h, w) && c in w.calls && AdvanceCall(w, c, true).Some?
    ensures Inv(h, AdvanceCall(w, c, true).value)
  {
    var p := w.calls[c];
    assert PhaseOk(w, p);
    if p.Acquire? && w.lock.None? {
      Locks(h, w, c);
    } else if p.Release? {
      Unlocks(h, w, c);
    } else if p.Reap? || p.Host? || p.Publish? {
      OwnerActs(h, w, c);
    } else {
      var p' := AdvanceCall(w, c, true).value.calls[c];
      Moves(h, w, c, p');
    }
  }

  lemma NextInv(h: Hazards, w: World, a: Action)
    requires Calm(h) && Inv(h, w) && Permits(h, w, a) && Next(w, a).Some?
    ensures Inv(h, Next(w, a).value)
  {
    match a
    case Begin(c) => Moves(h, w, c, Start);
    case Advance(c, _) => AdvanceInv(h, w, c);
    case BreakLock(c) => Breaks(h, w, c);
    case LockFails(c) => Moves(h, w, c, Done(Rejected));
    case RecordStays(c) => Moves(h, w, c, Host(w.calls[c].owns));
    case FactoryFails(c) => Moves(h, w, c, Release(w.calls[c].owns, Rejected));
    case LockStays(c) => Moves(h, w, c, Done(w.calls[c].outcome));
    case Crash(c) => Moves(h, w, c, Crashed);
  }

  lemma {:induction false} RunInv(h: Hazards, w: World, run: seq<Action>)
    requires Calm(h) && Inv(h, w) && PermittedRun(h, w, run) && Exec(w, run).Some?
    ensures Inv(h, Exec(w, run).value)
    decreases |run|
  {
    if run != [] {
      NextInv(h, w, run[0]);
      RunInv(h, Next(w, run[0]).value, run[1..]);
    }
  }

  // ---- main results ----

  ghost predicate Reaches(h: Hazards, w: World, w': World) {
    exists run :: PermittedRun(h, w, run) && Exec(w, run) == Some(w')
  }

  ghost predicate OneServer(w: World) {
    forall s, t :: s in w.live && t in w.live ==> s == t
  }

  /** Whatever the interleaving of any number of calls, with crashes, failing factories,
      failing unlinks and the breaking of orphaned locks, the calls converge on one
      server; and once all have returned the lock is free, unless an unlink failed. */
  lemma CallsConverge(h: Hazards, w0: World, w: World)
    requires Calm(h) && Initial(w0) && Reaches(h, w0, w)
    ensures Converged(w)
    ensures !h.lockStays && (forall c :: c in w.calls ==> w.calls[c].Done?) ==> w.lock.None?
    ensures (forall c :: c in w.calls ==> !Inside(w.calls[c])) ==> Orphaned(w)
  {
    var run :| PermittedRun(h, w0, run) && Exec(w0, run) == Some(w);
    InitialInv(h, w0);
    RunInv(h, w0, run);
    forall c | c in w.calls && w.calls[c].Done? && !w.calls[c].outcome.Rejected?
      ensures w.calls[c].outcome.server in w.live && w.record == Some(w.calls[c].outcome.server)
    {
      assert PhaseOk(w, w.calls[c]);
    }
  }

  lemma {:induction false} ExecAppend(h: Hazards, w: World, run: seq<Action>, a: Action)
    requires PermittedRun(h, w, run) && Exec(w, run).Some?
    requires Permits(h, Exec(w, run).value, a)
    ensures PermittedRun(h, w, run + [a])
    ensures Exec(w, run + [a]) == Next(Exec(w, run).value, a)
    decreases |run|
  {
    if run == [] {
      assert run + [a] == [a];
      assert [a][1..] == [];
      assert Next(w, a).Some? ==> Exec(Next(w, a).value, []) == Next(w, a);
    } else {
      assert (run + [a])[0] == run[0] && (run + [a])[1..] == run[1..] + [a];
      ExecAppend(h, Next(w, run[0]).value, run[1..], a);
    }
  }

  lemma Stays(h: Hazards, w: World)
    ensures Reaches(h, w, w)
  {
    assert PermittedRun(h, w, []) && Exec(w, []) == Some(w);
  }

  lemma Go(h: Hazards, w0: World, w: World, a: Action) returns (w': World)
    requires Reaches(h, w0, w) && Permits(h, w, a) && Next(w, a).Some?
    ensures w' == Next(w, a).value && Reaches(h, w0, w')
  {
    var run :| PermittedRun(h, w0, run) && Exec(w0, run) == Some(w);
    ExecAppend(h, w0, run, a);
    w' := Next(w, a).value;
  }

  /** A new call finds nothing live and takes the free lock. */
  lemma Enters(h: Hazards, w0: World, w: World, c: Call) returns (w': World)
    requires Reaches(h, w0, w) && c !in w.calls && w.lock.None? && !Live(w, w.record)
    ensures Reaches(h, w0, w') && w' == To(w.(lock := Some(c)), c, InnerRead(true))
  {
    w' := Go(h, w0, w, Begin(c));
    w' := Go(h, w0, w', Advance(c, true));
    w' := Go(h, w0, w', Advance(c, true));
    w' := Go(h, w0, w', Advance(c, true));
    assert w'.calls == w.calls[c := InnerRead(true)];
  }

  /** A new call finds nothing live and meets the lock held. */
  lemma Queues(h: Hazards, w0: World, w: World, c: Call) returns (w': World)
    requires Reaches(h, w0, w) && c !in w.calls && w.lock.Some? && !Live(w, w.record)
    ensures Reaches(h, w0, w') && w' == To(w, c, WaitRead)
  {
    w' := Go(h, w0, w, Begin(c));
    w' := Go(h, w0, w', Advance(c, true));
    w' := Go(h, w0, w', Advance(c, true));
    w' := Go(h, w0, w', Advance(c, true));
    assert w'.calls == w.calls[c := WaitRead];
  }

  /** A call inside finds nothing live and hosts. */
  lemma Hosts(h: Hazards, w0: World, w: World, c: Call) returns (w': World)
    requires Reaches(h, w0, w) && c in w.calls && w.calls[c].InnerRead? && !Live(w, w.record)
    ensures Reaches(h, w0, w')
    ensures w' == To(w.(record := None, live := w.live + {w.next}, next := w.next + 1),
                     c, Publish(w.next, w.calls[c].owns))
  {
    w' := Go(h, w0, w, Advance(c, true));
    w' := Go(h, w0, w', Advance(c, true));
    assert w' == To(w, c, Reap(w.calls[c].owns));
    w' := Replaces(h, w0, w', c);
    assert w'.calls == w.calls[c := Publish(w.next, w.calls[c].owns)];
  }

  /** A call that found nothing live drops the record and starts its server. */
  lemma Replaces(h: Hazards, w0: World, w: World, c: Call) returns (w': World)
    requires Reaches(h, w0, w) && c in w.calls && w.calls[c].Reap?
    ensures Reaches(h, w0, w')
    ensures w' == To(w.(record := None, live := w.live + {w.next}, next := w.next + 1),
                     c, Publish(w.next, w.calls[c].owns))
  {
    w' := Go(h, w0, w, Advance(c, true));
    w' := Go(h, w0, w', Advance(c, true));
    assert w'.calls == w.calls[c := Publish(w.next, w.calls[c].owns)];
  }

  /** A hosting call publishes its record, unlocks and returns. */
  lemma Completes(h: Hazards, w0: World, w: World, c: Call) returns (w': World)
    requires Reaches(h, w0, w) && c in w.calls && w.calls[c].Publish?
    ensures Reaches(h, w0, w')
    ensures w' == To(w.(record := Some(w.calls[c].server), lock := None), c, Done(Hosted(w.calls[c].server)))
  {
    w' := Go(h, w0, w, Advance(c, true));
    w' := Go(h, w0, w', Advance(c, true));
    assert w'.calls == w.calls[c := Done(Hosted(w.calls[c].server))];
  }

  /** A waiting call meets a live record and leaves the queue for it. */
  lemma Leaves(h: Hazards, w0: World, w: World, c: Call) returns (w': World)
    requires Reaches(h, w0, w) && c in w.calls && w.calls[c].WaitRead? && Live(w, w.record)
    ensures Reaches(h, w0, w') && w' == To(w, c, ReusedRead)
  {
    w' := Go(h, w0, w, Advance(c, true));
    w' := Go(h, w0, w', Advance(c, true));
    assert w'.calls == w.calls[c := ReusedRead];
  }

  /** A waiting call meets a live record that is gone when it looks again. */
  lemma FallsThrough(h: Hazards, w0: World, w: World, c: Call, s: Server) returns (w': World)
    requires Reaches(h, w0, w) && h.exits && c in w.calls && w.calls[c].WaitRead?
    requires w.record == Some(s) && s in w.live
    ensures Reaches(h, w0, w') && w' == To(w.(live := w.live - {s}), c, InnerRead(false))
  {
    w' := Leaves(h, w0, w, c);
    w' := Go(h, w0, w', Exit(s));
    w' := Go(h, w0, w', Advance(c, true));
    w' := Go(h, w0, w', Advance(c, true));
    assert w'.calls == w.calls[c := InnerRead(false)];
  }

  /** A new call whose first probe goes unanswered turns to the lock. */
  lemma Misses(h: Hazards, w0: World, w: World, c: Call) returns (w': World)
    requires Reaches(h, w0, w) && h.misses && c !in w.calls
    ensures Reaches(h, w0, w') && w' == To(w, c, Acquire)
  {
    w' := Go(h, w0, w, Begin(c));
    w' := Go(h, w0, w', Advance(c, true));
    w' := Go(h, w0, w', Advance(c, false));
    assert w'.calls == w.calls[c := Acquire];
  }

  /** A call inside whose probe goes unanswered goes on to host. */
  lemma MissesInside(h: Hazards, w0: World, w: World, c: Call) returns (w': World)
    requires Reaches(h, w0, w) && h.misses && c in w.calls && w.calls[c].InnerRead?
    ensures Reaches(h, w0, w') && w' == To(w, c, Reap(w.calls[c].owns))
  {
    w' := Go(h, w0, w, Advance(c, true));
    w' := Go(h, w0, w', Advance(c, false));
    assert w'.calls == w.calls[c := Reap(w.calls[c].owns)];
  }

  /** A call whose probes go unanswered passes over a live server. */
  lemma Overlooks(h: Hazards, w0: World, w: World, c: Call) returns (w': World)
    requires Reaches(h, w0, w) && h.misses && c !in w.calls && w.lock.None?
    ensures Reaches(h, w0, w') && w' == To(w.(lock := Some(c)), c, Reap(true))
  {
    w' := Misses(h, w0, w, c);
    w' := Go(h, w0, w', Advance(c, true));
    w' := MissesInside(h, w0, w', c);
    assert w'.calls == w.calls[c := Reap(true)];
  }

  const FRESH := World(None, None, {}, 0, map[])

  /** A new call that finds nothing live hosts, publishes and unlocks. */
  lemma HostsAlone(h: Hazards, w0: World, w: World, c: Call) returns (w': World)
    requires Reaches(h, w0, w) && c !in w.calls && w.lock.None? && !Live(w, w.record)
    ensures Reaches(h, w0, w')
    ensures w' == World(Some(w.next), None, w.live + {w.next}, w.next + 1, w.calls[c := Done(Hosted(w.next))])
  {
    w' := Enters(h, w0, w, c);
    w' := Hosts(h, w0, w', c);
    w' := Completes(h, w0, w', c);
    assert w'.calls == w.calls[c := Done(Hosted(w.next))];
  }

  /** Undisturbed, a call that finds nothing live hosts, publishes and unlocks. */
  lemma LoneCallHosts(w: World, c: Call) returns (w': World)
    requires c !in w.calls && w.lock.None? && !Live(w, w.record)
    ensures Reaches(CALM, w, w')
    ensures w' == World(Some(w.next), None, w.live + {w.next}, w.next + 1, w.calls[c := Done(Hosted(w.next))])
  {
    Stays(CALM, w);
    w' := HostsAlone(CALM, w, w, c);
  }

  /** A call that finds a live record returns it and changes nothing else, even while
      the lock is held. */
  lemma LiveRecordReused(w: World, c: Call, s: Server) returns (w': World)
    requires c !in w.calls && w.record == Some(s) && s in w.live
    ensures Reaches(CALM, w, w') && w' == To(w, c, Done(Reused(s)))
  {
    Stays(CALM, w);
    w' := Go(CALM, w, w, Begin(c));
    w' := Go(CALM, w, w', Advance(c, true));
    w' := Go(CALM, w, w', Advance(c, true));
    assert w'.calls == w.calls[c := Done(Reused(s))];
  }

  /** So does a call already waiting for the lock when the record appears. */
  lemma WaiterReuses(w: World, c: Call, s: Server) returns (w': World)
    requires c in w.calls && w.calls[c].WaitRead? && w.record == Some(s) && s in w.live
    ensures Reaches(CALM, w, w') && w' == To(w, c, Done(Reused(s)))
  {
    Stays(CALM, w);
    w' := ReturnsReused(CALM, w, w, c);
  }

  /** Breaking the lock of a call that still works inside lets two servers live. */
  lemma LiveBreakHostsTwo() returns (w: World)
    ensures Reaches(Hazards(true, false, false, false, false), FRESH, w) && !OneServer(w)
  {
    var h := Hazards(true, false, false, false, false);
    Stays(h, FRESH);
    w := Enters(h, FRESH, FRESH, 0);
    w := Queues(h, FRESH, w, 1);
    w := Go(h, FRESH, w, Advance(1, true));
    w := Go(h, FRESH, w, Advance(1, true));
    w := Go(h, FRESH, w, BreakLock(1));
    w := Go(h, FRESH, w, Advance(1, true));
    w := Hosts(h, FRESH, w, 1);
    w := Hosts(h, FRESH, w, 0);
    assert 0 in w.live && 1 in w.live;
  }

  /** A host that ends between the two probes of a waiting call sends that call on to
      host without the lock, beside the lock's next owner. */
  lemma ExitHostsTwo() returns (w: World)
    ensures Reaches(Hazards(false, true, false, false, false), FRESH, w) && !OneServer(w)
  {
    var h := Hazards(false, true, false, false, false);
    Stays(h, FRESH);
    w := Enters(h, FRESH, FRESH, 0);
    w := Hosts(h, FRESH, w, 0);
    w := Queues(h, FRESH, w, 1);
    w := Completes(h, FRESH, w, 0);
    w := FallsThrough(h, FRESH, w, 1, 0);
    w := Enters(h, FRESH, w, 2);
    w := Hosts(h, FRESH, w, 2);
    w := Hosts(h, FRESH, w, 1);
    assert 1 in w.live && 2 in w.live;
  }

  /** A host's end takes two steps; in between another call hosts, and then the record it
      published is the one unlinked. No call falls through here. */
  lemma CleanupHostsTwo() returns (w: World)
    ensures Reaches(Hazards(false, true, false, false, false), FRESH, w) && !OneServer(w)
  {
    var h := Hazards(false, true, false, false, false);
    Stays(h, FRESH);
    w := HostsAlone(h, FRESH, FRESH, 0);
    w := Go(h, FRESH, w, Exit(0));
    w := HostsAlone(h, FRESH, w, 1);
    w := Go(h, FRESH, w, CleansUp);
    w := Enters(h, FRESH, w, 2);
    w := Hosts(h, FRESH, w, 2);
    assert 1 in w.live && 2 in w.live;
  }

  /** A live server that two probes miss is hosted over. */
  lemma MissHostsTwo() returns (w: World)
    ensures Reaches(Hazards(false, false, true, false, false), FRESH, w) && !OneServer(w)
  {
    var h := Hazards(false, false, true, false, false);
    Stays(h, FRESH);
    w := Enters(h, FRESH, FRESH, 0);
    w := Hosts(h, FRESH, w, 0);
    w := Completes(h, FRESH, w, 0);
    w := Overlooks(h, FRESH, w, 1);
    w := Replaces(h, FRESH, w, 1);
    assert 0 in w.live && 1 in w.live;
  }

  /** A server whose record could not be written lives on unseen, beside the next. */
  lemma WriteFailureHostsTwo() returns (w: World)
    ensures Reaches(Hazards(false, false, false, true, false), FRESH, w) && !OneServer(w)
  {
    var h := Hazards(false, false, false, true, false);
    Stays(h, FRESH);
    w := Enters(h, FRESH, FRESH, 0);
    w := Hosts(h, FRESH, w, 0);
    w := Go(h, FRESH, w, WriteFails(0));
    w := Go(h, FRESH, w, Advance(0, true));
    w := Enters(h, FRESH, w, 1);
    w := Hosts(h, FRESH, w, 1);
    assert 0 in w.live && 1 in w.live;
  }

  // ---- what each call returns ----

  /** A call that comes to the free lock and finds a live record there returns it and
      changes nothing else. */
  lemma SecondLookReuses(w: World, c: Call, s: Server) returns (w': World)
    requires c in w.calls && w.calls[c].Acquire? && w.lock.None? && w.record == Some(s) && s in w.live
    ensures Reaches(CALM, w, w') && w' == To(w, c, Done(Reused(s)))
  {
    Stays(CALM, w);
    w' := Go(CALM, w, w, Advance(c, true));
    w' := Go(CALM, w, w', Advance(c, true));
    w' := Go(CALM, w, w', Advance(c, true));
    w' := Go(CALM, w, w', Advance(c, true));
    assert w'.calls == w.calls[c := Done(Reused(s))];
  }

  /** The call throws, or is about to. */
  predicate Throws(w: World, c: Call) {
    c in w.calls && (w.calls[c].Release? || w.calls[c].Done?) && w.calls[c].outcome.Rejected?
  }

  predicate Fails(a: Action, c: Call) { a == LockFails(c) || a == FactoryFails(c) || a == WriteFails(c) }

  /** A call throws only when creating its lock, its server or its record failed. */
  lemma {:induction false} ThrowsOnlyOnFailure(w: World, run: seq<Action>, c: Call)
    requires Exec(w, run).Some? && Throws(Exec(w, run).value, c) && !Throws(w, c)
    ensures exists k :: 0 <= k < |run| && Fails(run[k], c)
    decreases |run|
  {
    var next := Next(w, run[0]).value;
    if Throws(next, c) {
      assert Fails(run[0], c);
    } else {
      ThrowsOnlyOnFailure(next, run[1..], c);
      var k :| 0 <= k < |run[1..]| && Fails(run[1..][k], c);
      assert Fails(run[k + 1], c);
    }
  }

  /** The server a call hosts, or has hosted. */
  function HostedBy(p: Phase): Option<Server> {
    match p
    case Publish(s, _) => Some(s)
    case Release(_, Hosted(s)) => Some(s)
    case Done(Hosted(s)) => Some(s)
    case _ => None
  }

  predicate Hosting(w: World, c: Call, s: Server) { c in w.calls && HostedBy(w.calls[c]) == Some(s) }

  /** The k-th action of the run is the step in which call `c` starts server `s`. */
  predicate StartsAt(w: World, run: seq<Action>, k: nat, c: Call, s: Server) {
    && k < |run| && run[k].Advance? && run[k].c == c
    && Exec(w, run[..k]).Some?
    && var u := Exec(w, run[..k]).value;
    && c in u.calls && u.calls[c].Host? && u.next == s
  }

  lemma StartShifts(w: World, run: seq<Action>, k: nat, c: Call, s: Server)
    requires run != [] && Next(w, run[0]).Some? && StartsAt(Next(w, run[0]).value, run[1..], k, c, s)
    ensures StartsAt(w, run, k + 1, c, s)
  {
    assert run[..k + 1][0] == run[0] && run[..k + 1][1..] == run[1..][..k];
  }

  /** A call that returns a server as hosted started that very server itself. */
  lemma {:induction false} HostedMeansStarted(w: World, run: seq<Action>, c: Call, s: Server) returns (k: nat)
    requires Exec(w, run).Some? && Hosting(Exec(w, run).value, c, s) && !Hosting(w, c, s)
    ensures StartsAt(w, run, k, c, s)
    decreases |run|
  {
    var next := Next(w, run[0]).value;
    if Hosting(next, c, s) {
      k := 0;
      assert run[..0] == [];
    } else {
      k := HostedMeansStarted(next, run[1..], c, s);
      StartShifts(w, run, k, c, s);
      k := k + 1;
    }
  }

  /** No server is hosted by two calls. */
  ghost predicate HostsApart(w: World) {
    && (forall c: Call, s: Server :: Hosting(w, c, s) ==> s < w.next)
    && (forall c: Call, d: Call, s: Server :: Hosting(w, c, s) && Hosting(w, d, s) ==> c == d)
  }

  /** A call comes to host only by starting the next server. */
  lemma NewHost(w: World, a: Action, c: Call, s: Server)
    requires Next(w, a).Some? && Hosting(Next(w, a).value, c, s) && !Hosting(w, c, s)
    ensures a.Advance? && a.c == c && s == w.next && Next(w, a).value.next == s + 1
  {
  }

  lemma HostsStayApart(w: World, a: Action)
    requires HostsApart(w) && Next(w, a).Some?
    ensures HostsApart(Next(w, a).value)
  {
    var w' := Next(w, a).value;
    assert w'.next >= w.next;
    forall c: Call, s: Server | Hosting(w', c, s) ensures s < w'.next {
      if !Hosting(w, c, s) { NewHost(w, a, c, s); }
    }
    forall c: Call, d: Call, s: Server | Hosting(w', c, s) && Hosting(w', d, s) ensures c == d {
      if !Hosting(w, c, s) { NewHost(w, a, c, s); }
      if !Hosting(w, d, s) { NewHost(w, a, d, s); }
    }
  }

  lemma {:induction false} RunHostsApart(w: World, run: seq<Action>)
    requires HostsApart(w) && Exec(w, run).Some?
    ensures HostsApart(Exec(w, run).value)
    decreases |run|
  {
    if run != [] {
      HostsStayApart(w, run[0]);
      RunHostsApart(Next(w, run[0]).value, run[1..]);
    }
  }

  predicate Ended(w: World, c: Call, o: Outcome) { c in w.calls && w.calls[c] == Done(o) }

  /** Without hazards, on every run: a call throws only when creating its lock or its
      server failed; at most one call ever returns a server as hosted, having started it
      itself; and every other call that did not throw returns that server as reused. */
  lemma CallsEndRight(h: Hazards, w0: World, run: seq<Action>)
    requires Calm(h) && Initial(w0) && PermittedRun(h, w0, run) && Exec(w0, run).Some?
    ensures var w := Exec(w0, run).value;
      && (forall c: Call :: Ended(w, c, Rejected) ==> LockFails(c) in run || FactoryFails(c) in run)
      && (forall c: Call, s: Server :: Ended(w, c, Hosted(s)) ==> exists k :: StartsAt(w0, run, k, c, s))
      && (forall c: Call, d: Call, s: Server, t: Server :: Ended(w, c, Hosted(s)) && Ended(w, d, Hosted(t)) ==> c == d)
      && (forall c: Call, s: Server :: Ended(w, c, Hosted(s)) || Ended(w, c, Reused(s)) ==>
            s in w.live && w.record == Some(s))
  {
    var w := Exec(w0, run).value;
    assert Reaches(h, w0, w);
    CallsConverge(h, w0, w);
    RunHostsApart(w0, run);
    forall c: Call | Ended(w, c, Rejected) ensures LockFails(c) in run || FactoryFails(c) in run {
      ThrowsOnlyOnFailure(w0, run, c);
      NoWriteFails(h, w0, run, c);
    }
    forall c: Call, s: Server | Ended(w, c, Hosted(s)) ensures exists k :: StartsAt(w0, run, k, c, s) {
      var k := HostedMeansStarted(w0, run, c, s);
    }
    forall c: Call, d: Call, s: Server, t: Server | Ended(w, c, Hosted(s)) && Ended(w, d, Hosted(t)) ensures c == d {
      assert Hosting(w, c, s) && Hosting(w, d, t) && s == t;
    }
  }

  lemma {:induction false} NoWriteFails(h: Hazards, w: World, run: seq<Action>, c: Call)
    requires !h.writeFails && PermittedRun(h, w, run) && Exec(w, run).Some?
    ensures WriteFails(c) !in run
    decreases |run|
  {
    if run != [] { NoWriteFails(h, Next(w, run[0]).value, run[1..], c); }
  }

  // ---- progress ----

  /** How many steps of its own a call inside is from unlocking, at most. */
  function StepsInside(p: Phase): nat {
    match p
    case InnerRead(_) => 5
    case InnerCheck(_, _) => 4
    case Reap(_) => 3
    case Host(_) => 2
    case Publish(_, _) => 1
    case _ => 0
  }

  /** What a call inside returns when nothing disturbs it: the live server it finds on its
      second look, and otherwise the server it starts. */
  function EndsAs(w: World, p: Phase): Outcome
    requires Inside(p)
  {
    match p
    case InnerRead(_) => if Live(w, w.record) then Reused(w.record.value) else Hosted(w.next)
    case InnerCheck(r, _) => if Live(w, r) then Reused(r.value) else Hosted(w.next)
    case Publish(s, _) => Hosted(s)
    case Release(_, outcome) => outcome
    case _ => Hosted(w.next)
  }

  /** The servers a call inside has still to start. */
  function Starting(w: World, p: Phase): set<Server>
    requires Inside(p)
  {
    if p.Publish? || p.Release? || EndsAs(w, p).Reused? then {} else {w.next}
  }

  /** A call inside that is not yet unlocking, and its next step. */
  lemma StepInside(w: World, c: Call)
    requires c in w.calls && Inside(w.calls[c]) && !w.calls[c].Release?
    ensures var next := AdvanceCall(w, c, true).value;
      && next.calls.Keys == w.calls.Keys && Inside(next.calls[c])
      && next.calls == w.calls[c := next.calls[c]]
      && StepsInside(next.calls[c]) < StepsInside(w.calls[c])
      && EndsAs(next, next.calls[c]) == EndsAs(w, w.calls[c])
      && next.live + Starting(next, next.calls[c]) == w.live + Starting(w, w.calls[c])
      && (EndsAs(w, w.calls[c]).Reused? ==> next.record == w.record)
      && (next.calls[c].Release? && EndsAs(w, w.calls[c]).Hosted? ==> next.record == Some(EndsAs(w, w.calls[c]).server))
  {
  }

  /** A call inside finishes by its own steps, touches no other call and frees the lock:
      it returns a live server and leaves record and servers alone, or starts its server
      and publishes it. */
  lemma {:induction false} InsideFinishes(h: Hazards, w0: World, w: World, c: Call) returns (w': World)
    requires Reaches(h, w0, w) && c in w.calls && Inside(w.calls[c])
    ensures Reaches(h, w0, w') && w'.lock.None?
    ensures w'.calls == w.calls[c := Done(EndsAs(w, w.calls[c]))]
    ensures w'.live == w.live + Starting(w, w.calls[c])
    ensures EndsAs(w, w.calls[c]).Reused? || w.calls[c].Release? ==> w'.record == w.record
    ensures EndsAs(w, w.calls[c]).Hosted? && !w.calls[c].Release? ==>
      w'.record == Some(EndsAs(w, w.calls[c]).server)
    decreases StepsInside(w.calls[c])
  {
    var next := Go(h, w0, w, Advance(c, true));
    if w.calls[c].Release? {
      w' := next;
    } else {
      StepInside(w, c);
      w' := InsideFinishes(h, w0, next, c);
      assert w.calls[c := next.calls[c]][c := w'.calls[c]] == w.calls[c := w'.calls[c]];
    }
  }

  /** The call waits, or has not come to the lock yet. */
  predicate Outside(p: Phase) { !Inside(p) && !p.Done? && !p.Crashed? }

  /** How many steps of its own a call outside is from the lock, or from the end, at most. */
  function StepsOutside(p: Phase): nat {
    match p
    case Start => 2
    case FastCheck(_) => 1
    case WaitRead => 4
    case WaitCheck(_) => 3
    case WaitAge => 1
    case ReusedRead => 2
    case ReusedCheck(_) => 1
    case _ => 0
  }

  /** A call outside comes to the lock, or inside, or to its end, by its own steps. */
  lemma {:induction false} ComesToLock(h: Hazards, w0: World, w: World, c: Call) returns (w': World)
    requires Reaches(h, w0, w) && c in w.calls && Outside(w.calls[c])
    ensures Reaches(h, w0, w') && w'.lock == w.lock
    ensures c in w'.calls && w'.calls == w.calls[c := w'.calls[c]]
    ensures w'.calls[c].Acquire? || Inside(w'.calls[c]) || w'.calls[c].Done?
    decreases StepsOutside(w.calls[c])
  {
    w' := w;
    if !w.calls[c].Acquire? {
      w' := Go(h, w0, w, Advance(c, true));
      if Outside(w'.calls[c]) { w' := ComesToLock(h, w0, w', c); }
    }
  }

  /** A call before an orphaned lock returns a live record, or breaks the lock. */
  lemma PassesOrphan(h: Hazards, w0: World, w: World, c: Call) returns (w': World)
    requires Reaches(h, w0, w) && c in w.calls && w.calls[c].Acquire? && w.lock.Some? && Orphaned(w)
    ensures Reaches(h, w0, w') && c in w'.calls
    ensures w'.calls[c].Done? || (w'.calls[c].Acquire? && w'.lock.None?)
  {
    w' := Go(h, w0, w, Advance(c, true));
    if Live(w', w'.record) {
      w' := ReturnsReused(h, w0, w', c);
    } else {
      w' := Go(h, w0, w', Advance(c, true));
      w' := Go(h, w0, w', Advance(c, true));
      w' := Go(h, w0, w', BreakLock(c));
    }
  }

  /** A waiting call that meets a live record returns it. */
  lemma ReturnsReused(h: Hazards, w0: World, w: World, c: Call) returns (w': World)
    requires Reaches(h, w0, w) && c in w.calls && w.calls[c].WaitRead? && Live(w, w.record)
    ensures Reaches(h, w0, w') && w' == To(w, c, Done(Reused(w.record.value)))
  {
    w' := Leaves(h, w0, w, c);
    w' := Go(h, w0, w', Advance(c, true));
    w' := Go(h, w0, w', Advance(c, true));
    assert w'.calls == w.calls[c := Done(Reused(w.record.value))];
  }

  lemma TakesFreeLock(h: Hazards, w0: World, w: World, c: Call) returns (w': World)
    requires Reaches(h, w0, w) && c in w.calls && w.calls[c].Acquire? && w.lock.None?
    ensures Reaches(h, w0, w') && c in w'.calls && w'.calls[c].Done?
  {
    w' := Go(h, w0, w, Advance(c, true));
    w' := InsideFinishes(h, w0, w', c);
  }

  /** From the lock on: its owner finishes first, or left it behind. */
  lemma LockPassed(h: Hazards, w0: World, w: World, c: Call) returns (w': World)
    requires Reaches(h, w0, w) && c in w.calls && w.calls[c].Acquire? && LockOk(h, w)
    ensures Reaches(h, w0, w') && c in w'.calls && w'.calls[c].Done?
  {
    w' := w;
    if w.lock.Some? && Inside(w.calls[w.lock.value]) {
      w' := InsideFinishes(h, w0, w', w.lock.value);
    } else if w.lock.Some? {
      w' := PassesOrphan(h, w0, w', c);
    }
    if w'.calls[c].Acquire? { w' := TakesFreeLock(h, w0, w', c); }
  }

  /** No call is ever stuck: in every world reached without hazards each call that did
      not crash can still be brought to its end, by permitted steps. */
  lemma CallCanFinish(h: Hazards, w0: World, w: World, c: Call) returns (w': World)
    requires Calm(h) && Initial(w0) && Reaches(h, w0, w)
    requires c in w.calls && !w.calls[c].Crashed?
    ensures Reaches(h, w, w') && c in w'.calls && w'.calls[c].Done?
  {
    var run :| PermittedRun(h, w0, run) && Exec(w0, run) == Some(w);
    InitialInv(h, w0);
    RunInv(h, w0, run);
    Stays(h, w);
    w' := w;
    if Outside(w'.calls[c]) { w' := ComesToLock(h, w, w', c); }
    if Inside(w'.calls[c]) {
      w' := InsideFinishes(h, w, w', c);
    } else if w'.calls[c].Acquire? {
      w' := LockPassed(h, w, w', c);
    }
  }

  predicate NoMore(h: Hazards, h': Hazards) {
    && (h.liveBreaks ==> h'.liveBreaks) && (h.exits ==> h'.exits) && (h.misses ==> h'.misses)
    && (h.writeFails ==> h'.writeFails) && (h.lockStays ==> h'.lockStays)
  }

  lemma {:induction false} MoreHazards(h: Hazards, h': Hazards, w: World, run: seq<Action>)
    requires PermittedRun(h, w, run) && NoMore(h, h')
    ensures PermittedRun(h', w, run)
    decreases |run|
  {
    if run != [] && Next(w, run[0]).Some? {
      MoreHazards(h, h', Next(w, run[0]).value, run[1..]);
    }
  }

  lemma BadRun(h: Hazards) returns (w: World)
    requires !Calm(h)
    ensures Reaches(h, FRESH, w) && !OneServer(w)
  {
    var one: Hazards;
    if h.liveBreaks {
      one := Hazards(true, false, false, false, false);
      w := LiveBreakHostsTwo();
    } else if h.exits {
      one := Hazards(false, true, false, false, false);
      w := ExitHostsTwo();
    } else if h.misses {
      one := Hazards(false, false, true, false, false);
      w := MissHostsTwo();
    } else {
      one := Hazards(false, false, false, true, false);
      w := WriteFailureHostsTwo();
    }
    var run :| PermittedRun(one, FRESH, run) && Exec(FRESH, run) == Some(w);
    MoreHazards(one, h, FRESH, run);
  }

  /** The protocol keeps at most one live server on every run exactly when the
      environment has none of the four hazards: breaking a lock whose owner still works,
      hosting torn down, a probe missing a live server, or a record write failing. */
  lemma OneServerIffNoHazard(h: Hazards)
    ensures (forall w0, w :: Initial(w0) && Reaches(h, w0, w) ==> OneServer(w)) <==> Calm(h)
  {
    if Calm(h) {
      forall w0, w | Initial(w0) && Reaches(h, w0, w) ensures OneServer(w) {
        CallsConverge(h, w0, w);
      }
    } else {
      var w := BadRun(h);
      assert Initial(FRESH);
    }
  }
}
