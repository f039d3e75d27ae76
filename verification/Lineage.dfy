/** The dispatch ledger: who dispatched whom, and the rule that designer and builder
    are siblings, neither an ancestor of the other. */
module Lineage {
  import opened Common

  datatype Role = Orchestrator | Architect | Designer | Builder | Tester | Judge
  /** An empty parent id counts as none. */
  datatype Entry = Entry(id: string, role: Role, parent: string)

  /** A dispatch request: the role is None when unknown; `id` is empty when the caller
      leaves it to be generated. */
  datatype Request = Request(
    role: Option<Role>, id: string, parent: string, agent: string, systemPrompt: string)

  /** The index of the first entry with this id, or the length of the ledger. */
  function Find(entries: seq<Entry>, id: string): (i: nat)
    ensures i <= |entries|
    ensures i < |entries| ==> entries[i].id == id
    ensures forall j :: 0 <= j < i ==> entries[j].id != id
  {
    if entries == [] || entries[0].id == id then 0 else 1 + Find(entries[1..], id)
  }

  predicate Knows(entries: seq<Entry>, id: string) { Find(entries, id) < |entries| }

  /** The recorded parent of an id; empty for a root and for an unknown id. */
  function ParentOf(entries: seq<Entry>, id: string): string {
    if Knows(entries, id) then entries[Find(entries, id)].parent else ""
  }

  // ---- ancestry ----

  /** `path` climbs from its first id to its last, one recorded parent at a time. */
  predicate Climbs(entries: seq<Entry>, path: seq<string>) {
    && |path| >= 2
    && forall i :: 0 <= i < |path| - 1 ==>
         ParentOf(entries, path[i]) != "" && ParentOf(entries, path[i]) == path[i + 1]
  }

  /** The transitive closure of the parent links. */
  ghost predicate Ancestor(entries: seq<Entry>, ancestor: string, id: string) {
    exists path :: Climbs(entries, path) && path[0] == id && path[|path| - 1] == ancestor
  }

  lemma ParentIsAncestor(entries: seq<Entry>, id: string)
    requires ParentOf(entries, id) != ""
    ensures Ancestor(entries, ParentOf(entries, id), id)
  {
    assert Climbs(entries, [id, ParentOf(entries, id)]);
  }

  lemma AncestorOn(entries: seq<Entry>, a: string, b: string, c: string)
    requires Ancestor(entries, a, b) && Ancestor(entries, b, c)
    ensures Ancestor(entries, a, c)
  {
    var p :| Climbs(entries, p) && p[0] == c && p[|p| - 1] == b;
    var q :| Climbs(entries, q) && q[0] == b && q[|q| - 1] == a;
    var r := p + q[1..];
    forall i | 0 <= i < |r| - 1
      ensures ParentOf(entries, r[i]) != "" && ParentOf(entries, r[i]) == r[i + 1]
    {
      if i < |p| - 1 { assert r[i] == p[i] && r[i + 1] == p[i + 1]; }
      else { assert r[i] == q[i - (|p| - 1)] && r[i + 1] == q[i - (|p| - 1) + 1]; }
    }
    assert Climbs(entries, r) && r[|r| - 1] == a;
  }

  lemma AllBelow(entries: seq<Entry>, ids: set<string>, id: string, above: string)
    requires Ancestor(entries, above, id) && forall x :: x in ids ==> Ancestor(entries, id, x)
    ensures forall x :: x in ids + {id} ==> Ancestor(entries, above, x)
  {
    forall x | x in ids ensures Ancestor(entries, above, x) { AncestorOn(entries, above, id, x); }
  }

  /** No climb leaves a set of ids that is closed under taking parents. */
  lemma {:induction false} ClimbStays(entries: seq<Entry>, ids: set<string>, path: seq<string>, k: nat)
    requires Climbs(entries, path) && path[0] in ids && k < |path|
    requires forall x :: x in ids && ParentOf(entries, x) != "" ==> ParentOf(entries, x) in ids
    ensures path[k] in ids
  {
    if k > 0 {
      ClimbStays(entries, ids, path, k - 1);
      assert ParentOf(entries, path[k - 1]) == path[k - 1 + 1];
    }
  }

  /** Ids closed under parents, none of which has `ancestor` for a parent. */
  lemma NoClimb(entries: seq<Entry>, ids: set<string>, ancestor: string, id: string)
    requires id in ids
    requires forall x :: x in ids && ParentOf(entries, x) != "" ==>
      ParentOf(entries, x) in ids && ParentOf(entries, x) != ancestor
    ensures !Ancestor(entries, ancestor, id)
  {
    forall path | Climbs(entries, path) && path[0] == id ensures path[|path| - 1] != ancestor {
      ClimbStays(entries, ids, path, |path| - 2);
      assert ParentOf(entries, path[|path| - 2]) == path[|path| - 2 + 1];
    }
  }

  // ---- the ledger ----

  /** The entry a dispatch adds, or why it is refused. `generated` fills a missing id. */
  function Admit(entries: seq<Entry>, d: Request, generated: string): Result<Entry> {
    if d.role.None? then Err("unknown role")
    else if d.agent == "" && d.systemPrompt == "" then Err("dispatch must set agent OR system_prompt")
    else
      var id := if d.id != "" then d.id else generated;
      if Knows(entries, id) then Err("duplicate lineage_id")
      else if d.parent != "" && !Knows(entries, d.parent) then Err("unknown parent_id")
      else Ok(Entry(id, d.role.value, d.parent))
  }

  function Dispatched(entries: seq<Entry>, d: Request, generated: string): seq<Entry> {
    var r := Admit(entries, d, generated);
    if r.Ok? then entries + [r.value] else entries
  }

  /** The sibling rule, stated on the closure of the parent links. */
  ghost predicate Siblings(entries: seq<Entry>, designer: string, builder: string) {
    && Knows(entries, designer) && Knows(entries, builder)
    && designer != builder
    && !Ancestor(entries, designer, builder) && !Ancestor(entries, builder, designer)
    && ParentOf(entries, designer) != "" && ParentOf(entries, builder) != ""
  }

  class LineageLedger {
    var entries: seq<Entry>

    /** A ledger may start from entries read back from its file, which nothing checks. */
    constructor (stored: seq<Entry>)
      ensures entries == stored
    {
      entries := stored;
    }

    method Dispatch(d: Request, generated: string) returns (r: Result<Entry>)
      modifies this
      ensures r == Admit(old(entries), d, generated)
      ensures entries == Dispatched(old(entries), d, generated)
    {
      if d.role.None? { return Err("unknown role"); }
      if d.agent == "" && d.systemPrompt == "" { return Err("dispatch must set agent OR system_prompt"); }
      var id := if d.id != "" then d.id else generated;
      if Knows(entries, id) { return Err("duplicate lineage_id"); }
      if d.parent != "" && !Knows(entries, d.parent) { return Err("unknown parent_id"); }
      var entry := Entry(id, d.role.value, d.parent);
      entries := entries + [entry];
      r := Ok(entry);
    }

    /** The parent walk decides the closure on any ledger, cyclic or dangling ones
        included. `guarded` tells that its cycle guard was taken, which never happens on
        a ledger in dispatch order. */
    method IsAncestor(ancestor: string, id: string) returns (yes: bool, ghost guarded: bool)
      ensures yes <==> Ancestor(entries, ancestor, id)
      ensures guarded ==> !InDispatchOrder(entries)
    {
      guarded := false;
      var cur := id;
      var seen: set<string> := {};
      ghost var ids := set i | 0 <= i < |entries| :: entries[i].id;
      while Knows(entries, cur) && ParentOf(entries, cur) != ""
        invariant seen <= ids
        invariant cur == id || id in seen
        invariant forall x :: x in seen ==> ParentOf(entries, x) != "" && ParentOf(entries, x) != ancestor
        invariant forall x :: x in seen ==> ParentOf(entries, x) in seen || ParentOf(entries, x) == cur
        invariant forall x :: x in seen ==> Ancestor(entries, cur, x)
        decreases ids - seen
      {
        if cur in seen {
          NoClimb(entries, seen, ancestor, id);
          CycleHasNoOrder(entries, cur);
          guarded := true;
          return false, true;
        }
        assert entries[Find(entries, cur)].id in ids;
        var parent := ParentOf(entries, cur);
        ParentIsAncestor(entries, cur);
        AllBelow(entries, seen, cur, parent);
        seen := seen + {cur};
        if parent == ancestor { return true, false; }
        cur := parent;
      }
      NoClimb(entries, seen + {cur}, ancestor, id);
      yes := false;
    }

    method AssertSiblings(designer: string, builder: string) returns (r: Result<()>)
      ensures r.Ok? <==> Siblings(entries, designer, builder)
    {
      if !Knows(entries, designer) { return Err("unknown designer lineage"); }
      if !Knows(entries, builder) { return Err("unknown builder lineage"); }
      if designer == builder { return Err("designer and builder must be distinct lineages"); }
      var above, _ := IsAncestor(designer, builder);
      if above { return Err("designer must not be an ancestor of builder"); }
      var below, _ := IsAncestor(builder, designer);
      if below { return Err("builder must not be an ancestor of designer"); }
      if ParentOf(entries, designer) == "" || ParentOf(entries, builder) == "" {
        return Err("designer and builder must each have a neutral parent");
      }
      r := Ok(());
    }
  }

  /** As dispatching builds it: no id twice, and every parent recorded earlier. */
  predicate InDispatchOrder(entries: seq<Entry>) {
    && (forall i, j :: 0 <= i < j < |entries| ==> entries[i].id != entries[j].id)
    && (forall i :: 0 <= i < |entries| && entries[i].parent != "" ==> Find(entries, entries[i].parent) < i)
  }

  lemma CycleHasNoOrder(entries: seq<Entry>, id: string)
    requires Ancestor(entries, id, id)
    ensures !InDispatchOrder(entries)
  {
    if InDispatchOrder(entries) { OrderedIsAcyclic(entries, id, id); }
  }

  /** In dispatch order every ancestor stands earlier. */
  lemma OrderedIsAcyclic(entries: seq<Entry>, ancestor: string, id: string)
    requires InDispatchOrder(entries) && Ancestor(entries, ancestor, id)
    ensures Find(entries, ancestor) < Find(entries, id) < |entries|
    ensures ancestor != id
  {
    var path :| Climbs(entries, path) && path[0] == id && path[|path| - 1] == ancestor;
    assert ParentOf(entries, path[0]) != "";
    ClimbDescends(entries, path, |path| - 1);
  }

  lemma {:induction false} ClimbDescends(entries: seq<Entry>, path: seq<string>, k: nat)
    requires InDispatchOrder(entries) && Climbs(entries, path) && 0 < k < |path|
    ensures Find(entries, path[k]) < Find(entries, path[0])
  {
    var i := Find(entries, path[k - 1]);
    assert ParentOf(entries, path[k - 1]) != "" && ParentOf(entries, path[k - 1]) == path[k - 1 + 1];
    assert Find(entries, entries[i].parent) < i;
    if k > 1 { ClimbDescends(entries, path, k - 1); }
  }

  // ---- every run of dispatches ----

  datatype Call = Call(request: Request, generated: string)

  function Run(entries: seq<Entry>, calls: seq<Call>): seq<Entry>
    decreases |calls|
  {
    if calls == [] then entries
    else Run(Dispatched(entries, calls[0].request, calls[0].generated), calls[1..])
  }

  lemma FindGrows(entries: seq<Entry>, e: Entry, id: string)
    ensures Knows(entries, id) ==> Find(entries + [e], id) == Find(entries, id)
    ensures !Knows(entries, id) ==> Find(entries + [e], id) == if e.id == id then |entries| else |entries| + 1
  {
    var more := entries + [e];
    var i, j := Find(entries, id), Find(more, id);
    if i < |entries| { assert more[i].id == id; }
    if j < |entries| { assert entries[j].id == id; }
    if e.id == id { assert more[|entries|].id == id; }
  }

  lemma DispatchKeepsOrder(entries: seq<Entry>, c: Call)
    requires InDispatchOrder(entries)
    ensures InDispatchOrder(Dispatched(entries, c.request, c.generated))
  {
    var r := Admit(entries, c.request, c.generated);
    if r.Ok? {
      var more := entries + [r.value];
      forall i | 0 <= i < |more| && more[i].parent != "" ensures Find(more, more[i].parent) < i {
        FindGrows(entries, r.value, more[i].parent);
      }
      assert forall i :: 0 <= i < |entries| ==> entries[i].id != r.value.id;
    }
  }

  ghost predicate Recorded(entries: seq<Entry>, id: string) { exists i :: 0 <= i < |entries| && entries[i].id == id }

  lemma KnowsIff(entries: seq<Entry>, id: string)
    ensures Knows(entries, id) <==> Recorded(entries, id)
  {
    if Knows(entries, id) { assert entries[Find(entries, id)].id == id; }
  }

  /** The id a dispatch asks for, or the generated one. */
  function IdFor(d: Request, generated: string): string { if d.id == "" then generated else d.id }

  /** A dispatch is recorded exactly when its role is known, it names an agent or a prompt,
      its id is new and its parent, if any, recorded. The entry at the end is the only
      change: the id has the parent asked for, and every other id its own as before. */
  lemma DispatchSpec(entries: seq<Entry>, d: Request, generated: string, x: string)
    ensures var id, r, after := IdFor(d, generated), Admit(entries, d, generated), Dispatched(entries, d, generated);
      && (r.Ok? <==> d.role.Some? && (d.agent != "" || d.systemPrompt != "") && !Recorded(entries, id)
                     && (d.parent == "" || Recorded(entries, d.parent)))
      && after == (if r.Ok? then entries + [Entry(id, d.role.value, d.parent)] else entries)
      && (r.Ok? ==> Knows(after, id) && ParentOf(after, id) == d.parent)
      && (r.Ok? && x != id ==> (Knows(after, x) <==> Knows(entries, x)) && ParentOf(after, x) == ParentOf(entries, x))
  {
    var r := Admit(entries, d, generated);
    KnowsIff(entries, IdFor(d, generated));
    KnowsIff(entries, d.parent);
    if r.Ok? {
      FindGrows(entries, r.value, IdFor(d, generated));
      FindGrows(entries, r.value, x);
    }
  }

  /** Every ancestor of the id is recorded: its climb ends at a root. */
  ghost predicate Rooted(entries: seq<Entry>, id: string) {
    forall x :: Ancestor(entries, x, id) ==> Knows(entries, x)
  }

  lemma {:induction false} ClimbUnchanged(entries: seq<Entry>, e: Entry, path: seq<string>, k: nat)
    requires Climbs(entries + [e], path) && 0 < k < |path|
    requires Knows(entries, path[0]) && Rooted(entries, path[0]) && !Knows(entries, e.id)
    ensures Ancestor(entries, path[k], path[0])
  {
    assert ParentOf(entries + [e], path[k - 1]) != "" && ParentOf(entries + [e], path[k - 1]) == path[k - 1 + 1];
    FindGrows(entries, e, path[k - 1]);
    if k == 1 {
      ParentIsAncestor(entries, path[0]);
    } else {
      ClimbUnchanged(entries, e, path, k - 1);
      ParentIsAncestor(entries, path[k - 1]);
      AncestorOn(entries, path[k], path[k - 1], path[0]);
    }
  }

  /** A new entry gives a rooted id no new ancestor. */
  lemma NewEntryKeepsAncestry(entries: seq<Entry>, e: Entry, id: string)
    requires Knows(entries, id) && Rooted(entries, id) && !Knows(entries, e.id)
    ensures forall x :: Ancestor(entries + [e], x, id) ==> Ancestor(entries, x, id)
    ensures Rooted(entries + [e], id)
  {
    forall x | Ancestor(entries + [e], x, id) ensures Ancestor(entries, x, id) && Knows(entries + [e], x) {
      var path :| Climbs(entries + [e], path) && path[0] == id && path[|path| - 1] == x;
      ClimbUnchanged(entries, e, path, |path| - 1);
      FindGrows(entries, e, x);
    }
  }

  /** Whatever is dispatched later, a rooted id keeps its parent and gains no ancestor. */
  lemma {:induction false} RunKeepsAncestry(entries: seq<Entry>, calls: seq<Call>, ancestor: string, id: string)
    requires Knows(entries, id) && Rooted(entries, id)
    ensures Knows(Run(entries, calls), id)
    ensures ParentOf(Run(entries, calls), id) == ParentOf(entries, id)
    ensures Ancestor(Run(entries, calls), ancestor, id) ==> Ancestor(entries, ancestor, id)
    decreases |calls|
  {
    if calls != [] {
      var r := Admit(entries, calls[0].request, calls[0].generated);
      if r.Ok? {
        FindGrows(entries, r.value, id);
        NewEntryKeepsAncestry(entries, r.value, id);
      }
      RunKeepsAncestry(Dispatched(entries, calls[0].request, calls[0].generated), calls[1..], ancestor, id);
    }
  }

  lemma {:induction false} RunFromOrder(entries: seq<Entry>, calls: seq<Call>)
    requires InDispatchOrder(entries)
    ensures InDispatchOrder(Run(entries, calls))
    decreases |calls|
  {
    if calls != [] {
      DispatchKeepsOrder(entries, calls[0]);
      RunFromOrder(Dispatched(entries, calls[0].request, calls[0].generated), calls[1..]);
    }
  }

  /** From an empty ledger, any run of dispatches keeps ids unique and the ancestor
      relation free of cycles. */
  lemma LedgerIsForest(calls: seq<Call>)
    ensures InDispatchOrder(Run([], calls))
    ensures forall x :: !Ancestor(Run([], calls), x, x)
  {
    RunFromOrder([], calls);
    forall x ensures !Ancestor(Run([], calls), x, x) {
      if Ancestor(Run([], calls), x, x) { OrderedIsAcyclic(Run([], calls), x, x); }
    }
  }

  lemma OrderedIsRooted(entries: seq<Entry>, id: string)
    requires InDispatchOrder(entries)
    ensures Rooted(entries, id)
  {
    forall x | Ancestor(entries, x, id) ensures Knows(entries, x) { OrderedIsAcyclic(entries, x, id); }
  }

  /** Dispatching a missing ancestor of `id` under `other` puts `other` above `id`. */
  lemma FillsGap(entries: seq<Entry>, id: string, other: string, x: string) returns (call: Call)
    requires Knows(entries, other) && other != "" && Ancestor(entries, x, id) && !Knows(entries, x)
    ensures Ancestor(Run(entries, [call]), other, id)
  {
    call := Call(Request(Some(Tester), x, other, "agent", ""), "");
    var path :| Climbs(entries, path) && path[0] == id && path[|path| - 1] == x;
    var e := Entry(x, Tester, other);
    assert path[|path| - 2 + 1] == x;
    assert ParentOf(entries, path[|path| - 2]) == x;
    assert Run(entries, [call]) == Run(entries + [e], [call][1..]) == entries + [e];
    forall i | 0 <= i < |path| - 1
      ensures ParentOf(entries + [e], path[i]) != "" && ParentOf(entries + [e], path[i]) == path[i + 1]
    {
      assert ParentOf(entries, path[i]) != "";
      FindGrows(entries, e, path[i]);
    }
    assert Climbs(entries + [e], path);
    FindGrows(entries, e, x);
    ParentIsAncestor(entries + [e], x);
    AncestorOn(entries + [e], other, x, id);
  }

  lemma SiblingsKept(entries: seq<Entry>, calls: seq<Call>, designer: string, builder: string)
    requires Siblings(entries, designer, builder) && Rooted(entries, designer) && Rooted(entries, builder)
    ensures Siblings(Run(entries, calls), designer, builder)
  {
    RunKeepsAncestry(entries, calls, designer, builder);
    RunKeepsAncestry(entries, calls, builder, designer);
  }

  lemma GapUnseats(entries: seq<Entry>, designer: string, builder: string) returns (calls: seq<Call>)
    requires Siblings(entries, designer, builder) && designer != "" && builder != ""
    requires !Rooted(entries, designer) || !Rooted(entries, builder)
    ensures !Siblings(Run(entries, calls), designer, builder)
  {
    if x :| Ancestor(entries, x, designer) && !Knows(entries, x) {
      var call := FillsGap(entries, designer, builder, x);
      calls := [call];
    } else {
      var y :| Ancestor(entries, y, builder) && !Knows(entries, y);
      var call := FillsGap(entries, builder, designer, y);
      calls := [call];
    }
  }

  /** On any ledger, stored entries included: siblings stay siblings through every run of
      dispatches exactly when the climbs of both end at recorded roots. */
  lemma SiblingsForGoodIff(entries: seq<Entry>, designer: string, builder: string)
    requires Siblings(entries, designer, builder) && designer != "" && builder != ""
    ensures (forall calls :: Siblings(Run(entries, calls), designer, builder)) <==>
      Rooted(entries, designer) && Rooted(entries, builder)
  {
    if Rooted(entries, designer) && Rooted(entries, builder) {
      forall calls ensures Siblings(Run(entries, calls), designer, builder) {
        SiblingsKept(entries, calls, designer, builder);
      }
    } else {
      var calls := GapUnseats(entries, designer, builder);
    }
  }

  /** On a ledger built from empty, siblings stay siblings after any later dispatches. */
  lemma SiblingsForGood(before: seq<Call>, later: seq<Call>, designer: string, builder: string)
    requires Siblings(Run([], before), designer, builder)
    ensures Siblings(Run(Run([], before), later), designer, builder)
  {
    RunFromOrder([], before);
    OrderedIsRooted(Run([], before), designer);
    OrderedIsRooted(Run([], before), builder);
    SiblingsKept(Run([], before), later, designer, builder);
  }

  lemma AncestorVia(entries: seq<Entry>, ancestor: string, id: string)
    requires Ancestor(entries, ancestor, id)
    ensures ParentOf(entries, id) == ancestor || Ancestor(entries, ancestor, ParentOf(entries, id))
  {
    var path :| Climbs(entries, path) && path[0] == id && path[|path| - 1] == ancestor;
    assert ParentOf(entries, path[0]) != "" && ParentOf(entries, path[0]) == path[0 + 1];
    if |path| > 2 {
      var rest := path[1..];
      forall i | 0 <= i < |rest| - 1
        ensures ParentOf(entries, rest[i]) != "" && ParentOf(entries, rest[i]) == rest[i + 1]
      {
        assert rest[i] == path[i + 1] && rest[i + 1] == path[i + 1 + 1];
      }
      assert Climbs(entries, rest);
    }
  }

  /** Two dispatches in a row under one recorded parent are siblings. */
  lemma SiblingsUnderOne(entries: seq<Entry>, first: Call, second: Call)
    requires InDispatchOrder(entries) && first.request.parent == second.request.parent != ""
    requires Admit(entries, first.request, first.generated).Ok?
    requires Admit(Dispatched(entries, first.request, first.generated), second.request, second.generated).Ok?
    ensures var one := Dispatched(entries, first.request, first.generated);
      Siblings(Dispatched(one, second.request, second.generated),
               IdFor(first.request, first.generated), IdFor(second.request, second.generated))
  {
    var a, b := IdFor(first.request, first.generated), IdFor(second.request, second.generated);
    var p := first.request.parent;
    var one := Dispatched(entries, first.request, first.generated);
    var two := Dispatched(one, second.request, second.generated);
    DispatchKeepsOrder(entries, first);
    DispatchKeepsOrder(one, second);
    PlacesOf(entries, first.request, first.generated, p);
    PlacesOf(one, second.request, second.generated, p);
    PlacesOf(one, second.request, second.generated, a);
    PlacedSiblings(two, p, a, b);
  }

  lemma PlacedSiblings(entries: seq<Entry>, p: string, a: string, b: string)
    requires InDispatchOrder(entries) && p != ""
    requires Find(entries, p) < Find(entries, a) < Find(entries, b) < |entries|
    requires ParentOf(entries, a) == ParentOf(entries, b) == p
    ensures Siblings(entries, a, b)
  {
    if Ancestor(entries, a, b) {
      AncestorVia(entries, a, b);
      OlderIsNoDescendant(entries, p, a);
    }
    OlderIsNoDescendant(entries, a, b);
  }

  lemma OlderIsNoDescendant(entries: seq<Entry>, older: string, younger: string)
    requires InDispatchOrder(entries) && Find(entries, older) < Find(entries, younger)
    ensures older != younger && !Ancestor(entries, younger, older)
  {
    if Ancestor(entries, younger, older) { OrderedIsAcyclic(entries, younger, older); }
  }

  /** Where ids stand after a dispatch, and their parents. */
  lemma PlacesOf(entries: seq<Entry>, d: Request, generated: string, x: string)
    requires Admit(entries, d, generated).Ok? && Knows(entries, x)
    ensures var after, id := Dispatched(entries, d, generated), IdFor(d, generated);
      && Find(after, id) == |entries| && ParentOf(after, id) == d.parent
      && Find(after, x) == Find(entries, x) < |entries| && ParentOf(after, x) == ParentOf(entries, x)
  {
    var r := Admit(entries, d, generated).value;
    FindGrows(entries, r, IdFor(d, generated));
    FindGrows(entries, r, x);
  }
}
