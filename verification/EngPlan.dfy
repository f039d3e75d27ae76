/** Plan Inbox events: the entry check of the log and the event lifecycle. */
module EngPlan {
  import opened Common

  datatype Status = Open | Acknowledged | Incorporated | Rejected | Deferred | Blocked

  datatype Kind =
    | Comment | RequestChange | Block | Approve | Reprioritize | MarkRisky
    | AddAcceptanceCriterion | Clarify | ForceVerification | Defer | SplitTask | MergeTask
    | EscalateConvergence | RequireSecurityReview | DoNotTouch

  datatype Actor = Human | Orchestrator | Agent

  /** What an event says, fixed when it enters the log. */
  datatype Core = Core(
    id: string, planId: string, sectionId: string, kind: Kind, actor: Actor,
    author: string, text: string, createdAt: string)

  /** What the agent answered. */
  datatype Answer = Answer(
    agentStatus: Option<Status>, response: Option<string>, changed: seq<string>, at: Option<string>)

  datatype Event = Event(core: Core, status: Status, answer: Answer)

  datatype RawEvent = RawEvent(
    id: Field<string>, planId: Field<string>, sectionId: Field<string>, kind: Field<Kind>,
    actor: Field<Actor>, author: Field<string>, text: Field<string>, status: Field<Status>,
    createdAt: Field<string>, answer: Answer)

  function Or<T>(f: Field<T>, default: T): T { if f.Given? then f.value else default }

  /** An empty id or creation time stands for one still to be assigned. */
  function ParseEvent(raw: RawEvent): Result<Event> {
    if !Filled(raw.planId) then Err("event.plan_id required")
    else if !Filled(raw.sectionId) then Err("event.section_id required")
    else if !raw.kind.Given? then Err("event.type invalid")
    else if !raw.actor.Given? then Err("event.actor invalid")
    else if raw.status.Malformed? then Err("event.status invalid")
    else if raw.text.Malformed? then Err("event.text must be string")
    else Ok(Event(
      Core(Or(raw.id, ""), raw.planId.value, raw.sectionId.value, raw.kind.value, raw.actor.value,
           Or(raw.author, ActorName(raw.actor.value)), Or(raw.text, ""), Or(raw.createdAt, "")),
      Or(raw.status, Open),
      raw.answer))
  }

  function ActorName(a: Actor): string {
    match a case Human => "human" case Orchestrator => "orchestrator" case Agent => "agent"
  }

  /** A text field stands for `x`: given so, or not given as a text and `x` the default. */
  predicate TextIs(f: Field<string>, x: string, default: string) {
    f == Given(x) || (!f.Given? && x == default)
  }

  /** An object stands for the event: plan and section are named, type and actor known, and
      whatever may be left out is as given or the default. */
  predicate Says(raw: RawEvent, ev: Event) {
    && raw.planId == Given(ev.core.planId) && ev.core.planId != ""
    && raw.sectionId == Given(ev.core.sectionId) && ev.core.sectionId != ""
    && raw.kind == Given(ev.core.kind) && raw.actor == Given(ev.core.actor)
    && TextIs(raw.id, ev.core.id, "") && TextIs(raw.createdAt, ev.core.createdAt, "")
    && !raw.text.Malformed? && TextIs(raw.text, ev.core.text, "")
    && TextIs(raw.author, ev.core.author,
              match ev.core.actor case Human => "human" case Orchestrator => "orchestrator" case Agent => "agent")
    && (raw.status == Given(ev.status) || (raw.status.Absent? && ev.status.Open?))
    && raw.answer == ev.answer
  }

  /** The entry check admits exactly the objects that stand for an event, as that event. */
  lemma ParseIff(raw: RawEvent, ev: Event)
    ensures ParseEvent(raw) == Ok(ev) <==> Says(raw, ev)
  {
    if ParseEvent(raw).Ok? {
      var read := ParseEvent(raw).value;
      assert Says(raw, read);
      if Says(raw, ev) { assert ev.core == read.core && ev.status == read.status; }
    }
  }

  function KindName(k: Kind): string {
    match k
    case Comment => "comment"
    case RequestChange => "request_change"
    case Block => "block"
    case Approve => "approve"
    case Reprioritize => "reprioritize"
    case MarkRisky => "mark_risky"
    case AddAcceptanceCriterion => "add_acceptance_criterion"
    case Clarify => "clarify"
    case ForceVerification => "force_verification"
    case Defer => "defer"
    case SplitTask => "split_task"
    case MergeTask => "merge_task"
    case EscalateConvergence => "escalate_convergence"
    case RequireSecurityReview => "require_security_review"
    case DoNotTouch => "do_not_touch"
  }

  // ---- lifecycle ----

  predicate IsTerminal(s: Status) { s.Incorporated? || s.Rejected? || s.Deferred? }

  predicate CanTransition(from: Status, to: Status) {
    match from
    case Open => to.Acknowledged? || to.Blocked?
    case Acknowledged => IsTerminal(to) || to.Blocked?
    case Blocked => to.Acknowledged? || IsTerminal(to)
    case _ => false
  }

  function Transition(ev: Event, to: Status): Result<Event> {
    if CanTransition(ev.status, to) then Ok(ev.(status := to)) else Err("illegal transition")
  }

  /** The table in closed form: a move changes the status, leaves no terminal one, never
      returns to open, and resolves nothing that is still open. */
  lemma DirectIff(ev: Event, to: Status)
    ensures Transition(ev, to).Ok? <==>
      && to != ev.status && !to.Open?
      && !(ev.status.Incorporated? || ev.status.Rejected? || ev.status.Deferred?)
      && (ev.status.Open? ==> to.Acknowledged? || to.Blocked?)
    ensures Transition(ev, to).Ok? ==>
      var next := Transition(ev, to).value;
      next.core == ev.core && next.status == to && next.answer == ev.answer
  {
  }

  /** `path` walks the lifecycle table from its first status to its last. */
  predicate Walk(path: seq<Status>) {
    path != [] && forall i :: 0 <= i < |path| - 1 ==> CanTransition(path[i], path[i + 1])
  }

  ghost predicate Reaches(from: Status, to: Status) {
    exists path :: Walk(path) && path[0] == from && path[|path| - 1] == to
  }

  lemma StaysPut(s: Status)
    ensures Reaches(s, s)
  {
    assert Walk([s]);
  }

  lemma OneMove(from: Status, to: Status)
    requires CanTransition(from, to)
    ensures Reaches(from, to)
  {
    assert Walk([from, to]);
  }

  lemma ReachesOn(a: Status, b: Status, c: Status)
    requires Reaches(a, b) && Reaches(b, c)
    ensures Reaches(a, c)
  {
    var p :| Walk(p) && p[0] == a && p[|p| - 1] == b;
    var q :| Walk(q) && q[0] == b && q[|q| - 1] == c;
    var r := p + q[1..];
    forall i | 0 <= i < |r| - 1 ensures CanTransition(r[i], r[i + 1]) {
      if i >= |p| - 1 { assert r[i] == q[i - (|p| - 1)] && r[i + 1] == q[i - (|p| - 1) + 1]; }
    }
    assert Walk(r) && r[|r| - 1] == c;
  }

  /** The lifecycle in closed form: nothing returns to open, and a terminal status is final. */
  lemma ReachesIff(from: Status, to: Status)
    ensures Reaches(from, to) <==> from == to || (!IsTerminal(from) && !to.Open?)
  {
    if Reaches(from, to) {
      var p :| Walk(p) && p[0] == from && p[|p| - 1] == to;
      if |p| > 1 {
        assert CanTransition(p[0], p[1]);
        assert CanTransition(p[|p| - 2], p[|p| - 2 + 1]);
      }
    }
    if from == to {
      StaysPut(from);
    } else if !IsTerminal(from) && !to.Open? {
      if CanTransition(from, to) {
        OneMove(from, to);
      } else {
        assert from.Open? && IsTerminal(to);
        OneMove(Open, Acknowledged);
        OneMove(Acknowledged, to);
        ReachesOn(Open, Acknowledged, to);
      }
    }
  }
}
