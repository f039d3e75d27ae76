/** The Plan Inbox: which tasks a block halts, and the pass in which the agent answers
    every unresolved event. */
module Inbox {
  import opened Common
  import opened EngPlan
  import Text
  import opened Sorting

  datatype Section = Section(id: string, dependsOn: seq<string>)

  predicate IsActiveBlock(ev: Event) { ev.core.kind.Block? && !IsTerminal(ev.status) }

  /** A block nobody resolved. */
  predicate Blocks(ev: Event) {
    ev.core.kind.Block? && (ev.status.Open? || ev.status.Acknowledged? || ev.status.Blocked?)
  }

  ghost function Blocking(events: seq<Event>): set<string> {
    set i | 0 <= i < |events| && Blocks(events[i]) :: events[i].core.sectionId
  }

  method BlockedSections(events: seq<Event>) returns (blocked: set<string>)
    ensures blocked == Blocking(events)
  {
    blocked := {};
    for i := 0 to |events|
      invariant blocked == set k | 0 <= k < i && Blocks(events[k]) :: events[k].core.sectionId
    {
      if IsActiveBlock(events[i]) { blocked := blocked + {events[i].core.sectionId}; }
    }
  }

  // ---- halting ----

  /** Some section named `a` lists `b` among its dependencies. */
  ghost predicate DependsOn(sections: seq<Section>, a: string, b: string) {
    exists s :: s in sections && s.id == a && b in s.dependsOn
  }

  /** `chain` follows dependencies to a blocked id, which need not name a section. */
  ghost predicate ChainToBlock(sections: seq<Section>, blocked: set<string>, chain: seq<string>) {
    && chain != []
    && chain[|chain| - 1] in blocked
    && forall i :: 0 <= i < |chain| - 1 ==> DependsOn(sections, chain[i], chain[i + 1])
  }

  ghost predicate ReachesBlock(sections: seq<Section>, blocked: set<string>, id: string) {
    exists chain :: ChainToBlock(sections, blocked, chain) && chain[0] == id
  }

  function Ids(sections: seq<Section>): set<string> {
    set s | s in sections :: s.id
  }

  /** The plan's sections that carry an active block or reach one. */
  ghost function Halted(sections: seq<Section>, blocked: set<string>): set<string> {
    set id | id in Ids(sections) && ReachesBlock(sections, blocked, id)
  }

  ghost predicate ClosedAt(s: Section, blocked: set<string>, halted: set<string>) {
    (s.id in blocked || exists d :: d in s.dependsOn && (d in halted || d in blocked)) ==> s.id in halted
  }

  /** `halted` holds every section that is blocked or depends on a halted or blocked one. */
  ghost predicate ClosedUnder(sections: seq<Section>, blocked: set<string>, halted: set<string>) {
    forall s :: s in sections ==> ClosedAt(s, blocked, halted)
  }

  lemma BlockedReaches(sections: seq<Section>, blocked: set<string>, id: string)
    requires id in blocked
    ensures ReachesBlock(sections, blocked, id)
  {
    assert ChainToBlock(sections, blocked, [id]);
  }

  lemma DependentReaches(sections: seq<Section>, blocked: set<string>, s: Section, d: string)
    requires s in sections && d in s.dependsOn && ReachesBlock(sections, blocked, d)
    ensures ReachesBlock(sections, blocked, s.id)
  {
    var chain :| ChainToBlock(sections, blocked, chain) && chain[0] == d;
    var longer := [s.id] + chain;
    forall i | 0 <= i < |longer| - 1 ensures DependsOn(sections, longer[i], longer[i + 1]) {
      if i > 0 { assert longer[i] == chain[i - 1] && longer[i + 1] == chain[i - 1 + 1]; }
    }
    assert ChainToBlock(sections, blocked, longer);
  }

  lemma {:induction false} ChainHalts(
      sections: seq<Section>, blocked: set<string>, halted: set<string>, chain: seq<string>)
    requires ClosedUnder(sections, blocked, halted)
    requires ChainToBlock(sections, blocked, chain) && chain[0] in Ids(sections)
    ensures chain[0] in halted
    decreases |chain|
  {
    if |chain| == 1 {
      var s :| s in sections && s.id == chain[0];
      assert ClosedAt(s, blocked, halted);
    } else {
      var s :| s in sections && s.id == chain[0] && chain[1] in s.dependsOn;
      assert ClosedAt(s, blocked, halted);
      var rest := chain[1..];
      forall i | 0 <= i < |rest| - 1 ensures DependsOn(sections, rest[i], rest[i + 1]) {
        assert rest[i] == chain[i + 1] && rest[i + 1] == chain[i + 1 + 1];
      }
      if |chain| > 2 { assert DependsOn(sections, chain[1], chain[1 + 1]); }
      if chain[1] in Ids(sections) {
        ChainHalts(sections, blocked, halted, rest);
      }
    }
  }

  /** The halted sections are the least set closed under blocking and dependency,
      whatever cycles or dangling dependencies the plan has. */
  lemma HaltedIsLeast(sections: seq<Section>, blocked: set<string>)
    ensures ClosedUnder(sections, blocked, Halted(sections, blocked))
    ensures forall h :: ClosedUnder(sections, blocked, h) ==> Halted(sections, blocked) <= h
  {
    forall s | s in sections ensures ClosedAt(s, blocked, Halted(sections, blocked)) {
      if s.id in blocked {
        BlockedReaches(sections, blocked, s.id);
      } else if d :| d in s.dependsOn && (d in Halted(sections, blocked) || d in blocked) {
        if d in blocked { BlockedReaches(sections, blocked, d); }
        DependentReaches(sections, blocked, s, d);
      }
    }
    forall h | ClosedUnder(sections, blocked, h) ensures Halted(sections, blocked) <= h {
      forall id | id in Halted(sections, blocked) ensures id in h {
        var chain :| ChainToBlock(sections, blocked, chain) && chain[0] == id;
        ChainHalts(sections, blocked, h, chain);
      }
    }
  }

  /** More active blocks never free a section. */
  lemma {:induction false} HaltedMonotone(sections: seq<Section>, blocked: set<string>, more: set<string>)
    requires blocked <= more
    ensures Halted(sections, blocked) <= Halted(sections, more)
  {
    HaltedIsLeast(sections, blocked);
    HaltedIsLeast(sections, more);
    forall s | s in sections ensures ClosedAt(s, blocked, Halted(sections, more)) {
      assert ClosedAt(s, more, Halted(sections, more));
    }
  }

  /** The order and repetition of sections do not matter. */
  lemma {:induction false} HaltedOrderFree(sections: seq<Section>, other: seq<Section>, blocked: set<string>)
    requires forall s :: s in sections <==> s in other
    ensures Halted(sections, blocked) == Halted(other, blocked)
  {
    HaltedIsLeast(sections, blocked);
    HaltedIsLeast(other, blocked);
    assert ClosedUnder(sections, blocked, Halted(other, blocked));
    assert ClosedUnder(other, blocked, Halted(sections, blocked));
  }

  /** The fixed-point loop: passes over the sections until one changes nothing. */
  method HaltedTasks(sections: seq<Section>, events: seq<Event>) returns (halted: set<string>)
    ensures halted == Halted(sections, Blocking(events))
  {
    var blocked := BlockedSections(events);
    halted := {};
    for i := 0 to |sections|
      invariant halted <= Halted(sections, blocked)
      invariant forall j :: 0 <= j < i && sections[j].id in blocked ==> sections[j].id in halted
    {
      if sections[i].id in blocked {
        BlockedReaches(sections, blocked, sections[i].id);
        assert sections[i] in sections;
        halted := halted + {sections[i].id};
      }
    }
    var changed := true;
    while changed
      invariant halted <= Halted(sections, blocked)
      invariant forall j :: 0 <= j < |sections| && sections[j].id in blocked ==> sections[j].id in halted
      invariant !changed ==> ClosedUnder(sections, blocked, halted)
      decreases Halted(sections, blocked) - halted, changed
    {
      changed := false;
      ghost var before := halted;
      for i := 0 to |sections|
        invariant before <= halted <= Halted(sections, blocked)
        invariant !changed ==> halted == before
        invariant !changed ==> forall j :: 0 <= j < i ==> ClosedAt(sections[j], blocked, halted)
        invariant changed ==> before < halted
      {
        var s := sections[i];
        if s.id !in halted && exists d :: d in s.dependsOn && (d in halted || d in blocked) {
          ghost var d :| d in s.dependsOn && (d in halted || d in blocked);
          if d in blocked { BlockedReaches(sections, blocked, d); }
          DependentReaches(sections, blocked, s, d);
          assert s in sections;
          halted := halted + {s.id};
          changed := true;
        }
      }
      assert changed ==> Halted(sections, blocked) - halted < Halted(sections, blocked) - before;
    }
    HaltedIsLeast(sections, blocked);
  }

  method CanStart(sections: seq<Section>, events: seq<Event>, id: string) returns (ok: bool)
    ensures ok <==> !(id in Ids(sections) && ReachesBlock(sections, Blocking(events), id))
  {
    var halted := HaltedTasks(sections, events);
    ok := id !in halted;
  }

  // ---- reconciling ----

  /** What an evaluator decides; anything but the four lifecycle decisions defers. */
  datatype Verdict = Verdict(decision: Option<Status>, response: string, changed: seq<string>)

  /** The evaluator's answer to the i-th event it is asked about. */
  type Evaluator = (nat, Event) -> Option<Verdict>

  function Decision(v: Option<Verdict>): Status {
    if v.None? || v.value.decision.None? then Deferred
    else
      var d := v.value.decision.value;
      if d.Open? || d.Acknowledged? then Deferred else d
  }

  /** The event as the evaluator sees it. */
  function Presented(ev: Event): Event {
    if ev.status.Open? then ev.(status := Acknowledged) else ev
  }

  /** What is recorded for a verdict; without one the event is deferred. */
  function Recorded(v: Option<Verdict>, now: string): Answer {
    Answer(
      Some(Decision(v)),
      Some(if v.Some? then v.value.response else "deferred (no evaluator)"),
      if v.Some? then v.value.changed else [],
      Some(now))
  }

  function Settle(ev: Event, v: Option<Verdict>, now: string): Result<Event> {
    match Transition(Presented(ev), Decision(v))
    case Err(e) => Err(e)
    case Ok(next) => Ok(next.(answer := Recorded(v, now)))
  }

  function Resolve(ev: Event, i: nat, evaluate: Evaluator, now: string): Result<Event> {
    if IsTerminal(ev.status) then Ok(ev) else Settle(ev, evaluate(i, Presented(ev)), now)
  }

  /** The events from the i-th on, each resolved; the first failure fails the pass. */
  function ResolveFrom(events: seq<Event>, i: nat, evaluate: Evaluator, now: string): Result<seq<Event>>
    requires i <= |events|
    decreases |events| - i
  {
    if i == |events| then Ok([])
    else
      match Resolve(events[i], i, evaluate, now)
      case Err(e) => Err(e)
      case Ok(first) =>
        match ResolveFrom(events, i + 1, evaluate, now)
        case Err(e) => Err(e)
        case Ok(rest) => Ok([first] + rest)
  }

  predicate ByCreation(a: Event, b: Event) { Text.LexLe(a.core.createdAt, b.core.createdAt) }

  function InCreationOrder(events: seq<Event>): seq<Event> { StableSort(ByCreation, events) }

  function Reconcile(events: seq<Event>, evaluate: Evaluator, now: string): Result<seq<Event>> {
    ResolveFrom(InCreationOrder(events), 0, evaluate, now)
  }

  lemma ByCreationOrders()
    ensures TotalPreorder(ByCreation)
  {
    forall a, b ensures ByCreation(a, b) || ByCreation(b, a) {
      Text.LexTotal(a.core.createdAt, b.core.createdAt);
    }
    forall a, b, c | ByCreation(a, b) && ByCreation(b, c) ensures ByCreation(a, c) {
      Text.LexTransitive(a.core.createdAt, b.core.createdAt, c.core.createdAt);
    }
  }

  /** The pass meets an event that is blocked already and is told to block it. */
  predicate Stuck(ev: Event, i: nat, evaluate: Evaluator) {
    ev.status.Blocked? && evaluate(i, ev).Some? && evaluate(i, ev).value.decision == Some(Blocked)
  }

  /** The status a verdict leads to: one of the four decisions, or else deferred. */
  predicate Decides(v: Option<Verdict>, to: Status) {
    if v.None? || v.value.decision.None? then to.Deferred?
    else
      match v.value.decision.value
      case Incorporated => to.Incorporated?
      case Rejected => to.Rejected?
      case Blocked => to.Blocked?
      case _ => to.Deferred?
  }

  /** One event before and after a pass that got verdict `v` for it. */
  ghost predicate Answered(ev: Event, next: Event, v: Option<Verdict>, now: string) {
    if ev.status.Incorporated? || ev.status.Rejected? || ev.status.Deferred? then next == ev
    else
      && next.core == ev.core
      && Decides(v, next.status)
      && next.answer.agentStatus == Some(next.status)
      && next.answer.response == Some(if v.Some? then v.value.response else "deferred (no evaluator)")
      && next.answer.changed == (if v.Some? then v.value.changed else [])
      && next.answer.at == Some(now)
      && Reaches(ev.status, next.status)
  }

  lemma ResolveSpec(ev: Event, i: nat, evaluate: Evaluator, now: string)
    ensures var r := Resolve(ev, i, evaluate, now);
      && (r.Err? <==> Stuck(ev, i, evaluate))
      && (r.Ok? ==> Answered(ev, r.value, evaluate(i, Presented(ev)), now))
  {
    ReachesIff(ev.status, Decision(evaluate(i, Presented(ev))));
  }

  /** The j-th event became `next` by its own verdict, asked for with an open event shown as
      acknowledged. */
  ghost predicate AnsweredAt(events: seq<Event>, j: nat, next: Event, evaluate: Evaluator, now: string)
    requires j < |events|
  {
    var ev := events[j];
    Answered(ev, next, evaluate(j, ev.(status := if ev.status.Open? then Acknowledged else ev.status)), now)
  }

  lemma ResolveFromCons(events: seq<Event>, i: nat, evaluate: Evaluator, now: string)
    requires i < |events|
    ensures var first := Resolve(events[i], i, evaluate, now);
      var rest := ResolveFrom(events, i + 1, evaluate, now);
      var r := ResolveFrom(events, i, evaluate, now);
      && (r.Ok? <==> first.Ok? && rest.Ok?)
      && (r.Ok? ==> r.value == [first.value] + rest.value)
  {
  }

  /** Some event from the i-th on is stuck. */
  ghost predicate StuckFrom(events: seq<Event>, i: nat, evaluate: Evaluator) {
    exists j :: i <= j < |events| && Stuck(events[j], j, evaluate)
  }

  lemma StuckStep(events: seq<Event>, i: nat, evaluate: Evaluator)
    requires i < |events|
    ensures StuckFrom(events, i, evaluate) <==>
      Stuck(events[i], i, evaluate) || StuckFrom(events, i + 1, evaluate)
  {
  }

  lemma {:induction false} ResolveFromFails(events: seq<Event>, i: nat, evaluate: Evaluator, now: string)
    requires i <= |events|
    ensures ResolveFrom(events, i, evaluate, now).Err? <==> StuckFrom(events, i, evaluate)
    decreases |events| - i
  {
    if i < |events| {
      ResolveFromCons(events, i, evaluate, now);
      ResolveSpec(events[i], i, evaluate, now);
      StuckStep(events, i, evaluate);
      ResolveFromFails(events, i + 1, evaluate, now);
    }
  }

  /** The j-th event resolves to `next`. */
  predicate ResolvedAt(events: seq<Event>, j: nat, next: Event, evaluate: Evaluator, now: string)
    requires j < |events|
  {
    Resolve(events[j], j, evaluate, now) == Ok(next)
  }

  lemma {:induction false} ResolveFromEach(events: seq<Event>, i: nat, evaluate: Evaluator, now: string)
    requires i <= |events| && ResolveFrom(events, i, evaluate, now).Ok?
    ensures var r := ResolveFrom(events, i, evaluate, now).value;
      |r| == |events| - i && forall k :: 0 <= k < |r| ==> ResolvedAt(events, i + k, r[k], evaluate, now)
    decreases |events| - i
  {
    if i < |events| {
      ResolveFromCons(events, i, evaluate, now);
      ResolveFromEach(events, i + 1, evaluate, now);
      var r, rest := ResolveFrom(events, i, evaluate, now).value, ResolveFrom(events, i + 1, evaluate, now).value;
      forall k | 0 < k < |r| ensures ResolvedAt(events, i + k, r[k], evaluate, now) {
        assert ResolvedAt(events, i + 1 + (k - 1), rest[k - 1], evaluate, now);
      }
    }
  }

  lemma ResolveAllSpec(events: seq<Event>, evaluate: Evaluator, now: string)
    requires ResolveFrom(events, 0, evaluate, now).Ok?
    ensures var r := ResolveFrom(events, 0, evaluate, now).value;
      |r| == |events| && forall j :: 0 <= j < |r| ==> AnsweredAt(events, j, r[j], evaluate, now)
  {
    var r := ResolveFrom(events, 0, evaluate, now).value;
    ResolveFromEach(events, 0, evaluate, now);
    forall j | 0 <= j < |r| ensures AnsweredAt(events, j, r[j], evaluate, now) {
      assert ResolvedAt(events, 0 + j, r[j], evaluate, now);
      ResolveSpec(events[j], j, evaluate, now);
    }
  }

  /** The events created at one time, in the order they stand. */
  function CreatedAt(events: seq<Event>, time: string): seq<Event> {
    if events == [] then []
    else (if events[0].core.createdAt == time then [events[0]] else []) + CreatedAt(events[1..], time)
  }

  lemma {:induction false} PeersAreTimes(x: Event, events: seq<Event>)
    ensures Peers(ByCreation, x, events) == CreatedAt(events, x.core.createdAt)
  {
    if events != [] {
      PeersAreTimes(x, events[1..]);
      SameTime(x, events[0]);
    }
  }

  lemma SameTime(x: Event, y: Event)
    ensures Peer(ByCreation, x, y) <==> y.core.createdAt == x.core.createdAt
  {
    Text.LexTotal(x.core.createdAt, x.core.createdAt);
    if Peer(ByCreation, x, y) { Text.LexAntisymmetric(x.core.createdAt, y.core.createdAt); }
  }

  /** The same events by time of creation, those of one time as they stood. */
  ghost predicate StablyOrdered(events: seq<Event>, ordered: seq<Event>) {
    && multiset(ordered) == multiset(events)
    && (forall i, j :: 0 <= i < j < |ordered| ==>
          Text.Earlier(ordered[i].core.createdAt, ordered[j].core.createdAt))
    && (forall time :: CreatedAt(ordered, time) == CreatedAt(events, time))
  }

  lemma {:induction false} NoneCreated(events: seq<Event>, time: string)
    requires forall ev :: ev in events ==> ev.core.createdAt != time
    ensures CreatedAt(events, time) == []
  {
    if events != [] { NoneCreated(events[1..], time); }
  }

  lemma CreationOrder(events: seq<Event>)
    ensures StablyOrdered(events, InCreationOrder(events))
  {
    var ordered := InCreationOrder(events);
    ByCreationOrders();
    SortOrders(ByCreation, events);
    forall i, j | 0 <= i < j < |ordered|
      ensures Text.Earlier(ordered[i].core.createdAt, ordered[j].core.createdAt)
    {
      assert ByCreation(ordered[i], ordered[j]);
      Text.LexIff(ordered[i].core.createdAt, ordered[j].core.createdAt);
    }
    forall time ensures CreatedAt(ordered, time) == CreatedAt(events, time) {
      if x :| x in events && x.core.createdAt == time {
        SortKeepsPeers(ByCreation, x, events);
        PeersAreTimes(x, ordered);
        PeersAreTimes(x, events);
      } else {
        NoneCreated(events, time);
        forall ev | ev in ordered ensures ev.core.createdAt != time { OrderedKeeps(events, ev); }
        NoneCreated(ordered, time);
      }
    }
  }

  /** For every evaluator: the pass fails exactly when it is told to block an event that
      is blocked already. Otherwise its result is the stable creation order of the
      input, resolved events are untouched, and every other one carries the decision and
      the answer of its verdict, reached along the lifecycle table. */
  lemma ReconcileSpec(events: seq<Event>, evaluate: Evaluator, now: string)
    ensures var ordered := InCreationOrder(events); var r := Reconcile(events, evaluate, now);
      && StablyOrdered(events, ordered)
      && (r.Err? <==> StuckFrom(ordered, 0, evaluate))
      && (r.Ok? ==> |r.value| == |ordered| && forall j :: 0 <= j < |ordered| ==>
            AnsweredAt(ordered, j, r.value[j], evaluate, now))
  {
    CreationOrder(events);
    ResolveFromFails(InCreationOrder(events), 0, evaluate, now);
    if Reconcile(events, evaluate, now).Ok? { ResolveAllSpec(InCreationOrder(events), evaluate, now); }
  }

  /** No evaluator can halt a task that was free. */
  lemma ReconcileFrees(sections: seq<Section>, events: seq<Event>, evaluate: Evaluator, now: string)
    requires Reconcile(events, evaluate, now).Ok?
    ensures Halted(sections, Blocking(Reconcile(events, evaluate, now).value))
         <= Halted(sections, Blocking(events))
  {
    var ordered, r := InCreationOrder(events), Reconcile(events, evaluate, now).value;
    ResolveAllSpec(ordered, evaluate, now);
    forall b | b in Blocking(r) ensures b in Blocking(events) {
      var i :| 0 <= i < |r| && Blocks(r[i]) && r[i].core.sectionId == b;
      assert AnsweredAt(ordered, i, r[i], evaluate, now);
      OrderedKeeps(events, ordered[i]);
      var k :| 0 <= k < |events| && events[k] == ordered[i];
      assert Blocks(events[k]);
    }
    HaltedMonotone(sections, Blocking(r), Blocking(events));
  }

  function DefaultResponse(ev: Event): string {
    var name, section := KindName(ev.core.kind), ev.core.sectionId;
    match ev.core.kind
    case Comment | Clarify | RequestChange | AddAcceptanceCriterion => "Incorporated " + name + " on " + section + "."
    case Block => "Acknowledged block on " + section + "; halting dependents."
    case Approve => "Approval recorded for " + section + "."
    case _ => "Handled " + name + " on " + section + "."
  }

  /** The evaluator used when the caller gives none: keeps blocks blocked, incorporates
      the rest. */
  function DefaultEvaluate(i: nat, ev: Event): Option<Verdict> {
    Some(Verdict(Some(if ev.core.kind.Block? then Blocked else Incorporated), DefaultResponse(ev), [ev.core.sectionId]))
  }

  ghost predicate HasBlockedBlock(events: seq<Event>) {
    exists ev :: ev in events && ev.core.kind.Block? && ev.status.Blocked?
  }

  lemma OrderedKeeps(events: seq<Event>, ev: Event)
    ensures ev in InCreationOrder(events) <==> ev in events
  {
    assert ev in multiset(InCreationOrder(events)) <==> ev in multiset(events);
  }

  /** An event before and after a default pass. */
  predicate DefaultAnswered(ev: Event, next: Event, now: string) {
    if ev.status.Incorporated? || ev.status.Rejected? || ev.status.Deferred? then next == ev
    else
      && next.core == ev.core
      && (if ev.core.kind.Block? then next.status.Blocked? else next.status.Incorporated?)
      && next.answer.agentStatus == Some(next.status)
      && next.answer.changed == [ev.core.sectionId] && next.answer.at == Some(now)
  }

  lemma DefaultAnswer(ordered: seq<Event>, i: nat, now: string)
    requires ResolveFrom(ordered, 0, DefaultEvaluate, now).Ok? && i < |ordered|
    ensures var r := ResolveFrom(ordered, 0, DefaultEvaluate, now).value;
      && |r| == |ordered| && r[i].core == ordered[i].core && DefaultAnswered(ordered[i], r[i], now)
      && (r[i].core.kind.Block? && r[i].status.Blocked? <==> Blocks(ordered[i]))
  {
    ResolveAllSpec(ordered, DefaultEvaluate, now);
    var r := ResolveFrom(ordered, 0, DefaultEvaluate, now).value;
    assert AnsweredAt(ordered, i, r[i], DefaultEvaluate, now);
  }

  /** A default pass that succeeds blocks every unresolved block and incorporates every
      other unresolved event. */
  lemma DefaultOutcome(events: seq<Event>, now: string)
    requires Reconcile(events, DefaultEvaluate, now).Ok?
    ensures var ordered, r := InCreationOrder(events), Reconcile(events, DefaultEvaluate, now).value;
      && StablyOrdered(events, ordered) && |r| == |events| == |ordered|
      && forall i :: 0 <= i < |r| ==> DefaultAnswered(ordered[i], r[i], now)
  {
    var ordered, r := InCreationOrder(events), Reconcile(events, DefaultEvaluate, now).value;
    CreationOrder(events);
    if ordered != [] { DefaultAnswer(ordered, 0, now); }
    forall i | 0 <= i < |r| ensures DefaultAnswered(ordered[i], r[i], now) { DefaultAnswer(ordered, i, now); }
  }

  /** A pass of the default evaluator leaves every active block in status blocked. */
  lemma DefaultLeavesBlocks(events: seq<Event>, now: string)
    requires Reconcile(events, DefaultEvaluate, now).Ok?
    ensures HasBlockedBlock(Reconcile(events, DefaultEvaluate, now).value) <==> Blocking(events) != {}
  {
    var ordered, r := InCreationOrder(events), Reconcile(events, DefaultEvaluate, now).value;
    if ordered != [] { DefaultAnswer(ordered, 0, now); }
    forall i | 0 <= i < |ordered|
      ensures r[i].core.kind.Block? && r[i].status.Blocked? <==> Blocks(ordered[i])
    {
      DefaultAnswer(ordered, i, now);
    }
    SameBlocking(events, ordered);
    if ev :| ev in r && ev.core.kind.Block? && ev.status.Blocked? {
      var i :| 0 <= i < |r| && r[i] == ev;
      assert ordered[i].core.sectionId in Blocking(ordered);
    }
    if b :| b in Blocking(ordered) {
      var i :| 0 <= i < |ordered| && Blocks(ordered[i]) && ordered[i].core.sectionId == b;
      assert r[i] in r;
    }
  }

  lemma SameBlocking(events: seq<Event>, ordered: seq<Event>)
    requires ordered == InCreationOrder(events)
    ensures Blocking(ordered) == Blocking(events)
  {
    forall b | b in Blocking(ordered) ensures b in Blocking(events) {
      var i :| 0 <= i < |ordered| && Blocks(ordered[i]) && ordered[i].core.sectionId == b;
      OrderedKeeps(events, ordered[i]);
    }
    forall b | b in Blocking(events) ensures b in Blocking(ordered) {
      var i :| 0 <= i < |events| && Blocks(events[i]) && events[i].core.sectionId == b;
      OrderedKeeps(events, events[i]);
    }
  }

  /** With the default evaluator a pass fails exactly when some block is in status
      blocked; so a second pass fails exactly when the first met an active block. */
  lemma DefaultPassOnce(events: seq<Event>, now: string, later: string)
    ensures var first := Reconcile(events, DefaultEvaluate, now);
      && (first.Err? <==> HasBlockedBlock(events))
      && (first.Ok? ==> (Reconcile(first.value, DefaultEvaluate, later).Err? <==> Blocking(events) != {}))
  {
    DefaultFails(events, now);
    var first := Reconcile(events, DefaultEvaluate, now);
    if first.Ok? {
      DefaultLeavesBlocks(events, now);
      DefaultFails(first.value, later);
    }
  }

  lemma DefaultFails(events: seq<Event>, now: string)
    ensures Reconcile(events, DefaultEvaluate, now).Err? <==> HasBlockedBlock(events)
  {
    var ordered := InCreationOrder(events);
    ResolveFromFails(ordered, 0, DefaultEvaluate, now);
    if j :| 0 <= j < |ordered| && Stuck(ordered[j], j, DefaultEvaluate) {
      OrderedKeeps(events, ordered[j]);
    }
    if ev :| ev in events && ev.core.kind.Block? && ev.status.Blocked? {
      OrderedKeeps(events, ev);
      var j :| 0 <= j < |ordered| && ordered[j] == ev;
      assert Stuck(ordered[j], j, DefaultEvaluate);
    }
  }
}
