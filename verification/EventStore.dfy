/** The event log of one plan under sequential use: appending under a cap, the agent's
    answer to one event, and a reconcile pass whose result is written back. */
module EventStore {
  import opened Common
  import opened EngPlan
  import Inbox
  import opened Sorting

  datatype Limits = Limits(maxEvents: nat, maxBodyBytes: nat)

  /** The agent's answer to one event, `to` being the status it asks for. */
  datatype Response = Response(to: Field<Status>, text: Option<string>, changed: seq<string>)

  /** The event an append would add, or why it is refused. `size` is the length of the
      event's JSON text; `newId` and `now` fill a missing id and creation time. */
  function Admit(slug: string, limits: Limits, logged: nat,
                 raw: RawEvent, size: nat, newId: string, now: string): Result<Event>
  {
    match ParseEvent(if raw.planId.Absent? then raw.(planId := Given(slug)) else raw)
    case Err(e) => Err(e)
    case Ok(ev) =>
      if ev.core.planId != slug then Err("plan_id mismatch")
      else if size > limits.maxBodyBytes then Err("event body too large")
      else if logged >= limits.maxEvents then Err("event cap exceeded")
      else
        var id := if ev.core.id == "" then newId else ev.core.id;
        var at := if ev.core.createdAt == "" then now else ev.core.createdAt;
        Ok(ev.(core := ev.core.(id := id, createdAt := at)))
  }

  /** The answered event, or why the answer is refused. */
  function Answered(ev: Event, resp: Response, now: string): Result<Event> {
    match resp.to
    case Absent => Err("agent_status required")
    case Malformed => Err("illegal transition")
    case Given(to) =>
      var from := if ev.status.Open? && !to.Acknowledged? then ev.(status := Acknowledged) else ev;
      match Transition(from, to)
      case Err(e) => Err(e)
      case Ok(next) =>
        Ok(next.(answer := Answer(
          if to.Acknowledged? then None else Some(to),
          Some(if resp.text.Some? then resp.text.value else ""),
          resp.changed,
          Some(now))))
  }

  /** The index of the first event named `id`, or the length of the log. */
  function FindId(events: seq<Event>, id: string): (i: nat)
    ensures i <= |events|
    ensures i < |events| ==> events[i].core.id == id
    ensures forall j :: 0 <= j < i ==> events[j].core.id != id
  {
    if events == [] || events[0].core.id == id then 0 else 1 + FindId(events[1..], id)
  }

  function RespondTo(events: seq<Event>, id: string, resp: Response, now: string): Result<Event> {
    var i := FindId(events, id);
    if i == |events| then Err("event not found") else Answered(events[i], resp, now)
  }

  datatype Op =
    | Append(raw: RawEvent, size: nat, newId: string, now: string)
    | Respond(id: string, resp: Response, now: string)
    | Reconcile(evaluate: Inbox.Evaluator, now: string)

  datatype Store = Store(slug: string, limits: Limits)

  /** The log after one operation; a refused operation leaves it as it was. */
  function Apply(store: Store, events: seq<Event>, op: Op): seq<Event> {
    match op
    case Append(raw, size, newId, now) =>
      var r := Admit(store.slug, store.limits, |events|, raw, size, newId, now);
      if r.Ok? then events + [r.value] else events
    case Respond(id, resp, now) =>
      var r := RespondTo(events, id, resp, now);
      if r.Ok? then events[FindId(events, id) := r.value] else events
    case Reconcile(evaluate, now) =>
      var r := Inbox.Reconcile(events, evaluate, now);
      if r.Ok? then r.value else events
  }

  class EventLog {
    const store: Store
    var events: seq<Event>

    constructor (store: Store)
      ensures this.store == store && events == []
    {
      this.store, events := store, [];
    }

    method AppendEvent(raw: RawEvent, size: nat, newId: string, now: string) returns (r: Result<Event>)
      modifies this`events
      ensures r == Admit(store.slug, store.limits, |old(events)|, raw, size, newId, now)
      ensures events == Apply(store, old(events), Append(raw, size, newId, now))
    {
      var parsed := ParseEvent(if raw.planId.Absent? then raw.(planId := Given(store.slug)) else raw);
      if parsed.Err? { return parsed; }
      var ev := parsed.value;
      if ev.core.planId != store.slug { return Err("plan_id mismatch"); }
      if ev.core.id == "" { ev := ev.(core := ev.core.(id := newId)); }
      if ev.core.createdAt == "" { ev := ev.(core := ev.core.(createdAt := now)); }
      if size > store.limits.maxBodyBytes { return Err("event body too large"); }
      if |events| >= store.limits.maxEvents { return Err("event cap exceeded"); }
      events := events + [ev];
      r := Ok(ev);
    }

    method RespondToEvent(id: string, resp: Response, now: string) returns (r: Result<Event>)
      modifies this`events
      ensures r == RespondTo(old(events), id, resp, now)
      ensures events == Apply(store, old(events), Respond(id, resp, now))
    {
      var i := FindId(events, id);
      if i == |events| { return Err("event not found"); }
      var ev := events[i];
      if resp.to.Absent? { return Err("agent_status required"); }
      if resp.to.Malformed? { return Err("illegal transition"); }
      var to := resp.to.value;
      if ev.status.Open? && !to.Acknowledged? {
        ev := ev.(status := Acknowledged);
      }
      r := Transition(ev, to);
      if r.Err? { return; }
      var next := r.value.(answer := Answer(
        if to.Acknowledged? then None else Some(to),
        Some(if resp.text.Some? then resp.text.value else ""), resp.changed, Some(now)));
      events := events[i := next];
      r := Ok(next);
    }

    method ReconcileAndWrite(evaluate: Inbox.Evaluator, now: string) returns (r: Result<seq<Event>>)
      modifies this`events
      ensures r == Inbox.Reconcile(old(events), evaluate, now)
      ensures events == Apply(store, old(events), Reconcile(evaluate, now))
    {
      r := Inbox.Reconcile(events, evaluate, now);
      if r.Ok? { events := r.value; }
    }
  }

  // ---- what one operation does, from its arguments ----

  /** The object with the plan's slug filled in when it names no plan. */
  function WithPlan(store: Store, raw: RawEvent): RawEvent {
    raw.(planId := if raw.planId.Absent? then Given(store.slug) else raw.planId)
  }

  /** What an admitted event is logged as: a missing id and time are filled in. */
  predicate LoggedAs(ev: Event, next: Event, newId: string, now: string) {
    && next == ev.(core := ev.core.(id := next.core.id, createdAt := next.core.createdAt))
    && next.core.id == (if ev.core.id != "" then ev.core.id else newId)
    && next.core.createdAt == (if ev.core.createdAt != "" then ev.core.createdAt else now)
  }

  /** An append adds one event at the end, exactly when the object stands for an event of
      this plan, its text is not too long and the cap is not reached; else nothing. */
  lemma AppendSpec(store: Store, events: seq<Event>, raw: RawEvent, size: nat, newId: string, now: string)
    ensures var r := Admit(store.slug, store.limits, |events|, raw, size, newId, now);
      var after := Apply(store, events, Append(raw, size, newId, now));
      && (r.Ok? <==>
            && (exists ev :: Says(WithPlan(store, raw), ev) && ev.core.planId == store.slug)
            && size <= store.limits.maxBodyBytes && |events| < store.limits.maxEvents)
      && after == (if r.Ok? then events + [r.value] else events)
      && (r.Ok? ==> exists ev :: Says(WithPlan(store, raw), ev) && LoggedAs(ev, r.value, newId, now))
  {
    var filled := if raw.planId.Absent? then raw.(planId := Given(store.slug)) else raw;
    assert filled == WithPlan(store, raw);
    var parsed := ParseEvent(filled);
    if parsed.Ok? { ParseIff(filled, parsed.value); }
    if ev :| Says(WithPlan(store, raw), ev) && ev.core.planId == store.slug { ParseIff(filled, ev); }
    var r := Admit(store.slug, store.limits, |events|, raw, size, newId, now);
    if r.Ok? { assert LoggedAs(parsed.value, r.value, newId, now); }
  }

  /** The i-th event is the first of that id. */
  predicate FirstOf(events: seq<Event>, id: string, i: nat) {
    i < |events| && events[i].core.id == id && forall j :: 0 <= j < i ==> events[j].core.id != id
  }

  lemma FirstIsOne(events: seq<Event>, id: string, i: nat, k: nat)
    requires FirstOf(events, id, i) && FirstOf(events, id, k)
    ensures i == k
  {
  }

  /** The event with its answer: status as asked for, an acknowledgement leaving the
      agent's own status open. */
  predicate AnsweredAs(ev: Event, next: Event, to: Status, resp: Response, now: string) {
    && next.core == ev.core && next.status == to
    && next.answer.agentStatus == (if to.Acknowledged? then None else Some(to))
    && next.answer.response == Some(if resp.text.Some? then resp.text.value else "")
    && next.answer.changed == resp.changed && next.answer.at == Some(now)
  }

  /** An answer succeeds exactly when it names an event and asks an unresolved one for
      another status than it has and than open; then the first event of that id is
      answered as asked, and every other stays; else nothing changes. */
  lemma RespondSpec(store: Store, events: seq<Event>, id: string, resp: Response, now: string)
    ensures var r := RespondTo(events, id, resp, now);
      var after := Apply(store, events, Respond(id, resp, now));
      && (r.Ok? <==> exists i: nat :: FirstOf(events, id, i) &&
                       resp.to.Given? && Answerable(events[i].status, resp.to.value))
      && (r.Ok? ==> exists i: nat :: FirstOf(events, id, i) && after == events[i := r.value]
                                && AnsweredAs(events[i], r.value, resp.to.value, resp, now))
      && (r.Err? ==> after == events)
  {
    var k := FindId(events, id);
    if k < |events| {
      assert FirstOf(events, id, k);
      forall i: nat | FirstOf(events, id, i) ensures i == k { FirstIsOne(events, id, i, k); }
      if resp.to.Given? { AnswerSpec(events[k], resp, now); }
    }
  }

  predicate Answerable(from: Status, to: Status) {
    (from.Open? || from.Acknowledged? || from.Blocked?) && to != from && !to.Open?
  }

  lemma AnswerSpec(ev: Event, resp: Response, now: string)
    requires resp.to.Given?
    ensures Answered(ev, resp, now).Ok? <==> Answerable(ev.status, resp.to.value)
    ensures Answered(ev, resp, now).Ok? ==>
      AnsweredAs(ev, Answered(ev, resp, now).value, resp.to.value, resp, now)
  {
  }

  /** A pass that succeeds is written back whole; one that fails changes nothing. */
  lemma PassSpec(store: Store, events: seq<Event>, evaluate: Inbox.Evaluator, now: string)
    ensures var r := Inbox.Reconcile(events, evaluate, now);
      Apply(store, events, Reconcile(evaluate, now)) == if r.Ok? then r.value else events
  {
  }

  // ---- what every run keeps ----

  /** `next` is `ev` later on: the same in all it says, moved along the lifecycle, and
      not touched at all once resolved. */
  ghost predicate Later(ev: Event, next: Event) {
    && next.core == ev.core
    && Reaches(ev.status, next.status)
    && (IsTerminal(ev.status) ==> next == ev)
  }

  /** `f` finds every earlier event again, each at its own place. */
  ghost predicate KeptBy(before: seq<Event>, after: seq<Event>, f: seq<nat>) {
    Injects(f, |before|, |after|) && forall i :: 0 <= i < |before| ==> Later(before[i], after[f[i]])
  }

  ghost predicate Kept(before: seq<Event>, after: seq<Event>) {
    exists f :: KeptBy(before, after, f)
  }

  lemma SameLater(ev: Event)
    ensures Later(ev, ev)
  {
    StaysPut(ev.status);
  }

  lemma AllStay(before: seq<Event>, more: seq<Event>)
    ensures Kept(before, before + more)
  {
    var f := seq(|before|, i requires 0 <= i < |before| => i);
    forall i | 0 <= i < |before| ensures Later(before[i], (before + more)[f[i]]) { SameLater(before[i]); }
    assert KeptBy(before, before + more, f);
  }

  lemma LaterOn(a: Event, b: Event, c: Event)
    requires Later(a, b) && Later(b, c)
    ensures Later(a, c)
  {
    ReachesOn(a.status, b.status, c.status);
  }

  lemma KeptOn(a: seq<Event>, b: seq<Event>, c: seq<Event>)
    requires Kept(a, b) && Kept(b, c)
    ensures Kept(a, c)
  {
    var f :| KeptBy(a, b, f);
    var g :| KeptBy(b, c, g);
    var h := seq(|a|, i requires 0 <= i < |a| => g[f[i]]);
    forall i | 0 <= i < |a| ensures Later(a[i], c[h[i]]) { LaterOn(a[i], b[f[i]], c[g[f[i]]]); }
    forall i, j | 0 <= i < j < |a| ensures h[i] != h[j] {
      assert f[i] < f[j] || f[j] < f[i];
    }
    assert KeptBy(a, c, h);
  }

  lemma RespondKeeps(events: seq<Event>, id: string, resp: Response, now: string)
    requires RespondTo(events, id, resp, now).Ok?
    ensures Kept(events, events[FindId(events, id) := RespondTo(events, id, resp, now).value])
  {
    var k, next := FindId(events, id), RespondTo(events, id, resp, now).value;
    var after := events[k := next];
    ReachesIff(events[k].status, next.status);
    var f := seq(|events|, i requires 0 <= i < |events| => i);
    forall i | 0 <= i < |events| ensures Later(events[i], after[f[i]]) {
      if i != k { SameLater(events[i]); }
    }
    assert KeptBy(events, after, f);
  }

  lemma AnsweredIsLater(ev: Event, next: Event, v: Option<Inbox.Verdict>, now: string)
    requires Inbox.Answered(ev, next, v, now)
    ensures Later(ev, next)
  {
    if IsTerminal(ev.status) { SameLater(ev); }
  }

  lemma ReconcileKeeps(events: seq<Event>, evaluate: Inbox.Evaluator, now: string)
    requires Inbox.Reconcile(events, evaluate, now).Ok?
    ensures |Inbox.Reconcile(events, evaluate, now).value| == |events|
    ensures Kept(events, Inbox.Reconcile(events, evaluate, now).value)
  {
    var ordered, r := Inbox.InCreationOrder(events), Inbox.Reconcile(events, evaluate, now).value;
    Inbox.ResolveAllSpec(ordered, evaluate, now);
    var f := Match(events, ordered);
    forall i | 0 <= i < |events| ensures Later(events[i], r[f[i]]) {
      var k := f[i];
      assert Inbox.AnsweredAt(ordered, k, r[k], evaluate, now);
      AnsweredIsLater(ordered[k], r[k], evaluate(k, Inbox.Presented(ordered[k])), now);
    }
    assert KeptBy(events, r, f);
  }

  /** A refused operation, which leaves the log as it is. */
  lemma Unchanged(events: seq<Event>)
    ensures Kept(events, events)
  {
    AllStay(events, []);
    assert events + [] == events;
  }

  lemma AppendKeeps(store: Store, events: seq<Event>, raw: RawEvent, size: nat, newId: string, now: string)
    ensures var after := Apply(store, events, Append(raw, size, newId, now));
      Kept(events, after) && |after| <= Max(|events|, store.limits.maxEvents)
  {
    Unchanged(events);
    var r := Admit(store.slug, store.limits, |events|, raw, size, newId, now);
    if r.Ok? { AllStay(events, [r.value]); }
  }

  lemma AnswerKeeps(store: Store, events: seq<Event>, id: string, resp: Response, now: string)
    ensures var after := Apply(store, events, Respond(id, resp, now));
      Kept(events, after) && |after| == |events|
  {
    Unchanged(events);
    if RespondTo(events, id, resp, now).Ok? { RespondKeeps(events, id, resp, now); }
  }

  lemma PassKeeps(store: Store, events: seq<Event>, evaluate: Inbox.Evaluator, now: string)
    ensures var after := Apply(store, events, Reconcile(evaluate, now));
      Kept(events, after) && |after| == |events|
  {
    var r := Inbox.Reconcile(events, evaluate, now);
    assert Apply(store, events, Reconcile(evaluate, now)) == if r.Ok? then r.value else events;
    if r.Ok? { ReconcileKeeps(events, evaluate, now); } else { Unchanged(events); }
  }

  lemma ApplyKeeps(store: Store, events: seq<Event>, op: Op)
    ensures Kept(events, Apply(store, events, op))
    ensures |Apply(store, events, op)| <= Max(|events|, store.limits.maxEvents)
  {
    match op
    case Append(raw, size, newId, now) => AppendKeeps(store, events, raw, size, newId, now);
    case Respond(id, resp, now) => AnswerKeeps(store, events, id, resp, now);
    case Reconcile(evaluate, now) => PassKeeps(store, events, evaluate, now);
  }

  function Run(store: Store, events: seq<Event>, ops: seq<Op>): seq<Event>
    decreases |ops|
  {
    if ops == [] then events else Run(store, Apply(store, events, ops[0]), ops[1..])
  }

  lemma {:induction false} RunKeeps(store: Store, events: seq<Event>, ops: seq<Op>)
    ensures Kept(events, Run(store, events, ops))
    ensures |events| <= store.limits.maxEvents ==> |Run(store, events, ops)| <= store.limits.maxEvents
    decreases |ops|
  {
    if ops == [] {
      AllStay(events, []);
      assert events + [] == events;
    } else {
      ApplyKeeps(store, events, ops[0]);
      RunKeeps(store, Apply(store, events, ops[0]), ops[1..]);
      KeptOn(events, Apply(store, events, ops[0]), Run(store, events, ops));
    }
  }

  lemma SplitFirst<T>(s: seq<T>, k: nat)
    requires 0 < k <= |s|
    ensures s[..k][0] == s[0] && s[..k][1..] == s[1..][..k - 1] && s[1..][k - 1..] == s[k..]
  {
  }

  lemma {:induction false} RunSplits(store: Store, events: seq<Event>, ops: seq<Op>, k: nat)
    requires k <= |ops|
    ensures Run(store, events, ops) == Run(store, Run(store, events, ops[..k]), ops[k..])
    decreases k
  {
    if k == 0 {
      assert ops[0..] == ops;
    } else {
      SplitFirst(ops, k);
      RunSplits(store, Apply(store, events, ops[0]), ops[1..], k - 1);
    }
  }

  /** Over every run from an empty log the cap holds at the end, and whatever stood in
      the log at any point is still there: none lost, none altered in what it says,
      moved only along the lifecycle, and never touched after it was resolved. */
  lemma HistoryIsKept(store: Store, ops: seq<Op>, k: nat)
    requires k <= |ops|
    ensures Kept(Run(store, [], ops[..k]), Run(store, [], ops))
    ensures |Run(store, [], ops)| <= store.limits.maxEvents
  {
    RunSplits(store, [], ops, k);
    RunKeeps(store, Run(store, [], ops[..k]), ops[k..]);
    RunKeeps(store, [], ops);
  }
}
