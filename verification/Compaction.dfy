/** Checkpoint-aware compaction: the resume token, the summary rebuilt from artifacts
    before a compaction, and the continuity check after it. */
module Compaction {
  import opened Common
  import opened Text

  // ---- the resume token ----

  datatype RawToken = RawToken(
    schema: Field<string>, slug: Field<string>, branch: Field<string>, worktree: Field<string>,
    activePhase: Field<string>, lastCheckpoint: Field<string>, nextAction: Field<string>,
    headCommit: Field<string>, outstanding: Field<seq<string>>, pending: Field<seq<string>>,
    loopKind: Field<string>, loopContinue: Field<bool>, issuedAt: Field<string>)

  datatype Token = Token(
    slug: string, branch: string, worktree: string, activePhase: string, lastCheckpoint: string,
    nextAction: string, headCommit: string, outstanding: seq<string>, pending: seq<string>,
    loopKind: string, loopContinue: bool, issuedAt: string)

  predicate IsAlnum(c: char) { 'a' <= c <= 'z' || 'A' <= c <= 'Z' || '0' <= c <= '9' }

  predicate ValidSlug(s: string) {
    && 0 < |s| <= 200 && IsAlnum(s[0])
    && forall i :: 0 <= i < |s| ==> IsAlnum(s[i]) || s[i] == '_' || s[i] == '.' || s[i] == '-'
  }

  /** The loop continues unless the token says otherwise. */
  function Validate(raw: RawToken): Result<Token> {
    if raw.schema != Given("resume/1") then Err("resume token schema must be resume/1")
    else if !(raw.slug.Given? && ValidSlug(raw.slug.value)) then Err("resume token slug invalid")
    else if !(Filled(raw.branch) && Filled(raw.worktree) && Filled(raw.activePhase) &&
              Filled(raw.lastCheckpoint) && Filled(raw.headCommit) && Filled(raw.issuedAt)) then
      Err("resume token field required")
    else if !Filled(raw.nextAction) then Err("resume token missing required field: next_action")
    else if !raw.outstanding.Given? then Err("resume token outstanding must be an array of strings")
    else if !raw.pending.Given? then Err("resume token pending_subagents must be an array of strings")
    else if !Filled(raw.loopKind) then Err("resume token loop.kind required")
    else if raw.loopContinue.Malformed? then Err("resume token loop.continue must be a boolean")
    else Ok(Token(
      raw.slug.value, raw.branch.value, raw.worktree.value, raw.activePhase.value,
      raw.lastCheckpoint.value, raw.nextAction.value, raw.headCommit.value, raw.outstanding.value,
      raw.pending.value, raw.loopKind.value,
      if raw.loopContinue.Given? then raw.loopContinue.value else true, raw.issuedAt.value))
  }

  /** One to 200 letters, digits, underscores, dots and dashes of ASCII, a letter or digit first. */
  predicate NamesFile(slug: string) {
    && 1 <= |slug| <= 200 && slug[0] != '_' && slug[0] != '.' && slug[0] != '-'
    && forall i :: 0 <= i < |slug| ==>
         || slug[i] == '_' || slug[i] == '.' || slug[i] == '-'
         || 'a' <= slug[i] <= 'z' || 'A' <= slug[i] <= 'Z' || '0' <= slug[i] <= '9'
  }

  lemma SlugIff(slug: string)
    ensures ValidSlug(slug) <==> NamesFile(slug)
  {
  }

  /** A token in normal form: every text is there, and the slug can name a file. */
  predicate WellFormed(t: Token) {
    && NamesFile(t.slug)
    && t.branch != "" && t.worktree != "" && t.activePhase != "" && t.lastCheckpoint != ""
    && t.nextAction != "" && t.headCommit != "" && t.loopKind != "" && t.issuedAt != ""
  }

  /** The object a token is written as. */
  function RawOf(t: Token): RawToken {
    RawToken(
      Given("resume/1"), Given(t.slug), Given(t.branch), Given(t.worktree), Given(t.activePhase),
      Given(t.lastCheckpoint), Given(t.nextAction), Given(t.headCommit), Given(t.outstanding),
      Given(t.pending), Given(t.loopKind), Given(t.loopContinue), Given(t.issuedAt))
  }

  /** An object that stands for the token: as it is written, or with the default left out. */
  predicate Spells(raw: RawToken, t: Token) {
    raw == RawOf(t) || (t.loopContinue && raw == RawOf(t).(loopContinue := Absent))
  }

  lemma ValidNamesToken(raw: RawToken)
    requires Validate(raw).Ok?
    ensures WellFormed(Validate(raw).value) && Spells(raw, Validate(raw).value)
  {
    var t := Validate(raw).value;
    SlugIff(t.slug);
    assert RawOf(t).(loopContinue := raw.loopContinue) == raw;
  }

  lemma SpelledIsValid(raw: RawToken, t: Token)
    requires WellFormed(t) && Spells(raw, t)
    ensures Validate(raw) == Ok(t)
  {
    SlugIff(t.slug);
  }

  /** Validation reads back exactly what writing a token in normal form produces. */
  lemma ValidateIff(raw: RawToken, t: Token)
    ensures Validate(raw) == Ok(t) <==> WellFormed(t) && Spells(raw, t)
  {
    if Validate(raw) == Ok(t) { ValidNamesToken(raw); }
    if WellFormed(t) && Spells(raw, t) { SpelledIsValid(raw, t); }
  }

  // ---- the summary ----

  /** The elements of `s`, each where it first stands. */
  function Firsts(s: seq<string>): seq<string> {
    if s == [] then []
    else
      var init, last := s[..|s| - 1], s[|s| - 1];
      if last in init then Firsts(init) else Firsts(init) + [last]
  }

  method DedupePreserveOrder(arr: seq<string>) returns (out: seq<string>)
    ensures out == Firsts(arr)
  {
    var seen: set<string> := {};
    out := [];
    assert arr[..0] == [];
    for i := 0 to |arr|
      invariant out == Firsts(arr[..i])
      invariant seen == set x | x in arr[..i]
    {
      assert arr[..i + 1][..i] == arr[..i] && arr[..i + 1] == arr[..i] + [arr[i]];
      if arr[i] !in seen {
        seen := seen + {arr[i]};
        out := out + [arr[i]];
      }
    }
    assert arr[..|arr|] == arr;
  }

  /** `x` appears first before `y` does. */
  ghost predicate ComesFirst(s: seq<string>, x: string, y: string) {
    exists p, q :: 0 <= p < q < |s| && s[p] == x && s[q] == y && y !in s[..q]
  }

  lemma ComesFirstStays(s: seq<string>, last: string, x: string, y: string)
    requires ComesFirst(s, x, y)
    ensures ComesFirst(s + [last], x, y)
  {
    var p, q :| 0 <= p < q < |s| && s[p] == x && s[q] == y && y !in s[..q];
    var t := s + [last];
    assert t[p] == x && t[q] == y && t[..q] == s[..q];
  }

  lemma LastComesLater(s: seq<string>, last: string, x: string)
    requires x in s && last !in s
    ensures ComesFirst(s + [last], x, last)
  {
    var t := s + [last];
    var p :| 0 <= p < |s| && s[p] == x;
    assert t[p] == x && t[|s|] == last && t[..|s|] == s;
  }

  /** No element twice, none lost, none added, and the order of first appearance kept. */
  lemma {:induction false} FirstsSpec(s: seq<string>)
    ensures forall x :: x in Firsts(s) <==> x in s
    ensures forall i, j :: 0 <= i < j < |Firsts(s)| ==> Firsts(s)[i] != Firsts(s)[j]
    ensures forall i, j :: 0 <= i < j < |Firsts(s)| ==> ComesFirst(s, Firsts(s)[i], Firsts(s)[j])
  {
    if s != [] {
      var init, last := s[..|s| - 1], s[|s| - 1];
      FirstsSpec(init);
      assert s == init + [last];
      var r, f := Firsts(s), Firsts(init);
      forall i, j | 0 <= i < j < |r| ensures ComesFirst(s, r[i], r[j]) {
        assert r[i] == f[i] && f[i] in f;
        if j < |f| {
          ComesFirstStays(init, last, f[i], f[j]);
        } else {
          LastComesLater(init, last, f[i]);
        }
      }
    }
  }

  datatype TokenSource = NoToken | Passed(raw: RawToken) | Stored(file: Option<RawToken>)

  /** A parsed verdict; the string arrays it may carry count as outstanding work. */
  datatype Verdict = NotAVerdict | Verdict(outstanding: Field<seq<string>>, survivors: Field<seq<string>>)

  /** An inbox event with the text it shows: its summary, else title, else message. */
  datatype InboxItem = InboxItem(open: bool, text: Option<string>)

  datatype Inputs = Inputs(
    token: TokenSource, plan: Result<Option<(string, string)>>, log: Result<seq<string>>,
    verdicts: seq<Verdict>, inbox: seq<InboxItem>, transcript: Field<string>)

  datatype Summary = Summary(
    slug: string, plan: Option<(string, string)>, activePhase: string, lastCheckpoint: string,
    nextAction: string, outstanding: seq<string>, landed: seq<string>, loopKind: string, loopContinue: bool)

  /** A token that was passed in must be valid; one that cannot be read is just missing. */
  function ResolveToken(source: TokenSource): Result<Option<Token>> {
    match source
    case NoToken => Ok(None)
    case Passed(raw) => (match Validate(raw) case Ok(t) => Ok(Some(t)) case Err(e) => Err(e))
    case Stored(None) => Ok(None)
    case Stored(Some(raw)) => (match Validate(raw) case Ok(t) => Ok(Some(t)) case Err(_) => Ok(None))
  }

  function Listed(f: Field<seq<string>>): seq<string> { if f.Given? then f.value else [] }

  /** What a verdict adds. */
  function Work(v: Verdict): seq<string> {
    if v.Verdict? then Listed(v.outstanding) + Listed(v.survivors) else []
  }

  function FromVerdicts(verdicts: seq<Verdict>): seq<string> {
    if verdicts == [] then [] else FromVerdicts(verdicts[..|verdicts| - 1]) + Work(verdicts[|verdicts| - 1])
  }

  /** What an inbox event adds. */
  function Shown(ev: InboxItem): seq<string> {
    if ev.open && ev.text.Some? && ev.text.value != "" then [ev.text.value] else []
  }

  function FromInbox(inbox: seq<InboxItem>): seq<string> {
    if inbox == [] then [] else FromInbox(inbox[..|inbox| - 1]) + Shown(inbox[|inbox| - 1])
  }

  lemma NextVerdict(verdicts: seq<Verdict>, i: nat)
    requires i < |verdicts|
    ensures FromVerdicts(verdicts[..i + 1]) == FromVerdicts(verdicts[..i]) + Work(verdicts[i])
  {
    assert verdicts[..i + 1][..i] == verdicts[..i];
  }

  lemma NextItem(inbox: seq<InboxItem>, i: nat)
    requires i < |inbox|
    ensures FromInbox(inbox[..i + 1]) == FromInbox(inbox[..i]) + Shown(inbox[i])
  {
    assert inbox[..i + 1][..i] == inbox[..i];
  }

  method PushVerdict(before: seq<string>, v: Verdict) returns (outstanding: seq<string>)
    ensures outstanding == before + Work(v)
  {
    outstanding := before;
    if v.NotAVerdict? { return; }
    if v.outstanding.Given? { outstanding := outstanding + v.outstanding.value; }
    if v.survivors.Given? { outstanding := outstanding + v.survivors.value; }
  }

  method PushItem(before: seq<string>, ev: InboxItem) returns (outstanding: seq<string>)
    ensures outstanding == before + Shown(ev)
  {
    outstanding := before;
    if ev.open && ev.text.Some? && ev.text.value != "" { outstanding := outstanding + [ev.text.value]; }
  }

  /** Verdicts first, then inbox events; what is unusable is passed over. */
  method ResolveVerdicts(verdicts: seq<Verdict>, inbox: seq<InboxItem>) returns (outstanding: seq<string>)
    ensures outstanding == FromVerdicts(verdicts) + FromInbox(inbox)
  {
    outstanding := [];
    for i := 0 to |verdicts|
      invariant outstanding == FromVerdicts(verdicts[..i])
    {
      NextVerdict(verdicts, i);
      outstanding := PushVerdict(outstanding, verdicts[i]);
    }
    assert verdicts[..|verdicts|] == verdicts;
    for i := 0 to |inbox|
      invariant outstanding == FromVerdicts(verdicts) + FromInbox(inbox[..i])
    {
      NextItem(inbox, i);
      outstanding := PushItem(outstanding, inbox[i]);
    }
    assert inbox[..|inbox|] == inbox;
  }

  function NonBlank(lines: seq<string>): seq<string> {
    if lines == [] then []
    else (if Trim(lines[0]) != "" then [Trim(lines[0])] else []) + NonBlank(lines[1..])
  }

  function BuildSummary(input: Inputs): Result<Summary> {
    match ResolveToken(input.token)
    case Err(e) => Err(e)
    case Ok(token) =>
      if token.None? || Trim(token.value.nextAction) == "" then Err("missing next_action")
      else if input.plan.Err? then Err(input.plan.error)
      else if input.log.Err? then Err(input.log.error)
      else if input.transcript.Malformed? then Err("input.transcript must be a string or object")
      else
        var t := token.value;
        Ok(Summary(
          t.slug, input.plan.value, t.activePhase, t.lastCheckpoint, Trim(t.nextAction),
          Firsts(t.outstanding + (FromVerdicts(input.verdicts) + FromInbox(input.inbox))),
          NonBlank(input.log.value), t.loopKind, t.loopContinue))
  }

  predicate InVerdicts(verdicts: seq<Verdict>, x: string) {
    exists v :: v in verdicts && v.Verdict? && (x in Listed(v.outstanding) || x in Listed(v.survivors))
  }

  predicate InInbox(inbox: seq<InboxItem>, x: string) {
    exists ev :: ev in inbox && ev.open && ev.text == Some(x) && x != ""
  }

  /** The built summary's work list: the token's items, the usable verdicts' and the open
      inbox events', none twice and none else; the rest is the token's own. */
  lemma SummaryCarries(input: Inputs)
    requires BuildSummary(input).Ok?
    ensures ResolveToken(input.token).value.Some?
    ensures var s := BuildSummary(input).value; var t := ResolveToken(input.token).value.value;
      && (forall x :: x in s.outstanding <==>
            x in t.outstanding || InVerdicts(input.verdicts, x) || InInbox(input.inbox, x))
      && (forall i, j :: 0 <= i < j < |s.outstanding| ==> s.outstanding[i] != s.outstanding[j])
      && s.slug == t.slug && s.activePhase == t.activePhase && s.lastCheckpoint == t.lastCheckpoint
      && s.nextAction == Trim(t.nextAction) && s.loopKind == t.loopKind && s.loopContinue == t.loopContinue
  {
    var t := ResolveToken(input.token).value.value;
    FirstsSpec(t.outstanding + (FromVerdicts(input.verdicts) + FromInbox(input.inbox)));
    var work := t.outstanding + (FromVerdicts(input.verdicts) + FromInbox(input.inbox));
    forall x ensures x in work <==>
      x in t.outstanding || InVerdicts(input.verdicts, x) || InInbox(input.inbox, x)
    {
      FromVerdictsHolds(input.verdicts, x);
      FromInboxHolds(input.inbox, x);
    }
  }

  lemma {:induction false} FromVerdictsHolds(verdicts: seq<Verdict>, x: string)
    ensures x in FromVerdicts(verdicts) <==> InVerdicts(verdicts, x)
  {
    if verdicts != [] {
      var init, last := verdicts[..|verdicts| - 1], verdicts[|verdicts| - 1];
      FromVerdictsHolds(init, x);
      assert verdicts == init + [last];
      assert last in verdicts && forall v :: v in verdicts <==> v == last || v in init;
    }
  }

  lemma {:induction false} FromInboxHolds(inbox: seq<InboxItem>, x: string)
    ensures x in FromInbox(inbox) <==> InInbox(inbox, x)
  {
    if inbox != [] {
      var init, last := inbox[..|inbox| - 1], inbox[|inbox| - 1];
      FromInboxHolds(init, x);
      assert inbox == init + [last];
      assert last in inbox && forall ev :: ev in inbox <==> ev == last || ev in init;
    }
  }

  function Flatten(parts: seq<seq<string>>): seq<string> {
    if parts == [] then [] else Flatten(parts[..|parts| - 1]) + parts[|parts| - 1]
  }

  /** `w` is the work a verdict names: its outstanding items, then its survivors. */
  predicate NamesWork(v: Verdict, w: seq<string>) {
    match v
    case NotAVerdict => w == []
    case Verdict(Given(a), Given(b)) => w == a + b
    case Verdict(Given(a), _) => w == a
    case Verdict(_, Given(b)) => w == b
    case _ => w == []
  }

  /** `w` is what an event shows: its text when it is open and has one. */
  predicate ShowsWork(ev: InboxItem, w: seq<string>) {
    match ev
    case InboxItem(true, Some(text)) => w == if text == "" then [] else [text]
    case _ => w == []
  }

  lemma FlattenSnoc(parts: seq<seq<string>>, w: seq<string>)
    ensures Flatten(parts + [w]) == Flatten(parts) + w
  {
    assert (parts + [w])[..|parts|] == parts;
  }

  lemma {:induction false} VerdictParts(verdicts: seq<Verdict>) returns (parts: seq<seq<string>>)
    ensures |parts| == |verdicts| && FromVerdicts(verdicts) == Flatten(parts)
    ensures forall i :: 0 <= i < |parts| ==> NamesWork(verdicts[i], parts[i])
  {
    parts := [];
    if verdicts != [] {
      var v := verdicts[|verdicts| - 1];
      var init := VerdictParts(verdicts[..|verdicts| - 1]);
      OneVerdict(v);
      parts := init + [Work(v)];
      FlattenSnoc(init, Work(v));
    }
  }

  lemma OneVerdict(v: Verdict)
    ensures NamesWork(v, Work(v))
  {
  }

  lemma {:induction false} InboxParts(inbox: seq<InboxItem>) returns (parts: seq<seq<string>>)
    ensures |parts| == |inbox| && FromInbox(inbox) == Flatten(parts)
    ensures forall i :: 0 <= i < |parts| ==> ShowsWork(inbox[i], parts[i])
  {
    parts := [];
    if inbox != [] {
      var ev := inbox[|inbox| - 1];
      var init := InboxParts(inbox[..|inbox| - 1]);
      parts := init + [Shown(ev)];
      FlattenSnoc(init, Shown(ev));
    }
  }

  /** The list holds each element of `all` once, in the order of first appearance. */
  ghost predicate ListsOnce(all: seq<string>, list: seq<string>) {
    && (forall x :: x in list <==> x in all)
    && (forall i, j :: 0 <= i < j < |list| ==> list[i] != list[j] && ComesFirst(all, list[i], list[j]))
  }

  ghost predicate TrimsTo(line: string, t: string) { exists i :: IsTrimmed(line, t, i) }

  predicate Blank(line: string) { forall k :: 0 <= k < |line| ==> IsSpace(line[k]) }

  /** `at` tells which log line each landed commit is, trimmed; no other line has text. */
  ghost predicate Landed(lines: seq<string>, landed: seq<string>, at: seq<nat>) {
    && |at| == |landed|
    && (forall k :: 0 <= k < |at| ==> at[k] < |lines| && landed[k] != "" && TrimsTo(lines[at[k]], landed[k]))
    && (forall k, l :: 0 <= k < l < |at| ==> at[k] < at[l])
    && (forall n :: 0 <= n < |lines| && n !in at ==> Blank(lines[n]))
  }

  lemma BlankOrText(line: string)
    ensures Trim(line) == "" ==> Blank(line)
    ensures TrimsTo(line, Trim(line))
  {
    var i := TrimSpec(line);
  }

  lemma BlankLands(lines: seq<string>, landed: seq<string>, at: seq<nat>, line: string)
    requires Landed(lines, landed, at) && Blank(line)
    ensures Landed(lines + [line], landed, at)
  {
    var all := lines + [line];
    assert forall n :: 0 <= n < |lines| ==> all[n] == lines[n];
    assert forall k :: 0 <= k < |at| ==> all[at[k]] == lines[at[k]];
  }

  lemma TextLands(lines: seq<string>, landed: seq<string>, at: seq<nat>, line: string, t: string)
    requires Landed(lines, landed, at) && t != "" && TrimsTo(line, t)
    ensures Landed(lines + [line], landed + [t], at + [|lines|])
  {
    var all, list, more := lines + [line], landed + [t], at + [|lines|];
    forall k | 0 <= k < |more| ensures more[k] < |all| && list[k] != "" && TrimsTo(all[more[k]], list[k]) {
      if k < |at| { assert more[k] == at[k] && all[at[k]] == lines[at[k]] && list[k] == landed[k]; }
    }
    assert more[|at|] == |lines| && forall k :: 0 <= k < |at| ==> more[k] == at[k];
    forall n | 0 <= n < |all| && n !in more ensures Blank(all[n]) {
      assert n != |lines| && all[n] == lines[n];
    }
  }

  lemma {:induction false} NonBlankSnoc(lines: seq<string>, line: string)
    ensures NonBlank(lines + [line]) == NonBlank(lines) + (if Trim(line) != "" then [Trim(line)] else [])
  {
    if lines == [] {
      assert [] + [line] == [line] && [line][1..] == [];
    } else {
      assert (lines + [line])[1..] == lines[1..] + [line];
      NonBlankSnoc(lines[1..], line);
    }
  }

  lemma {:induction false} LandedLines(lines: seq<string>) returns (at: seq<nat>)
    ensures Landed(lines, NonBlank(lines), at)
  {
    at := [];
    if lines != [] {
      var init, line := lines[..|lines| - 1], lines[|lines| - 1];
      assert init + [line] == lines;
      at := LandedLines(init);
      NonBlankSnoc(init, line);
      BlankOrText(line);
      if Trim(line) == "" {
        BlankLands(init, NonBlank(init), at, line);
        assert NonBlank(init) + [] == NonBlank(init);
      } else {
        TextLands(init, NonBlank(init), at, line, Trim(line));
        at := at + [|init|];
      }
    }
  }

  /** From the inputs: the work list is the token's items, then each verdict's, then each
      open event's, each once; the landed commits are the log's lines with text, in order
      and trimmed; the plan is the one read. */
  lemma SummaryFrom(input: Inputs) returns (verdictWork: seq<seq<string>>, eventWork: seq<seq<string>>, at: seq<nat>)
    requires BuildSummary(input).Ok?
    ensures ResolveToken(input.token).value.Some? && input.plan.Ok? && input.log.Ok?
    ensures |verdictWork| == |input.verdicts| && |eventWork| == |input.inbox|
    ensures forall i :: 0 <= i < |verdictWork| ==> NamesWork(input.verdicts[i], verdictWork[i])
    ensures forall i :: 0 <= i < |eventWork| ==> ShowsWork(input.inbox[i], eventWork[i])
    ensures var s, t := BuildSummary(input).value, ResolveToken(input.token).value.value;
      && ListsOnce(t.outstanding + (Flatten(verdictWork) + Flatten(eventWork)), s.outstanding)
      && Landed(input.log.value, s.landed, at) && s.plan == input.plan.value
  {
    var t := ResolveToken(input.token).value.value;
    verdictWork := VerdictParts(input.verdicts);
    eventWork := InboxParts(input.inbox);
    FirstsSpec(t.outstanding + (Flatten(verdictWork) + Flatten(eventWork)));
    at := LandedLines(input.log.value);
  }

  // ---- the continuity check ----

  /** Any object offered as a summary. */
  datatype RawSummary = RawSummary(
    activePhase: Field<string>, nextAction: Field<string>, outstanding: Field<seq<string>>)

  function Offered(s: Summary): RawSummary {
    RawSummary(Given(s.activePhase), Given(s.nextAction), Given(s.outstanding))
  }

  /** The first outstanding item the summary lacks, or None. */
  function FirstMissing(items: seq<string>, have: seq<string>): Option<string> {
    if items == [] then None
    else if items[0] !in have then Some(items[0])
    else FirstMissing(items[1..], have)
  }

  /** The first reference the summary lacks, or None. */
  function SummaryGap(summary: Option<RawSummary>, token: Token): Option<string> {
    if summary.None? then Some("rehydrated summary missing or not an object")
    else
      var s := summary.value;
      if !Filled(s.activePhase) then Some("rehydrated summary missing active_phase")
      else if s.activePhase.value != token.activePhase then Some("active_phase does not match token")
      else if !Filled(s.nextAction) then Some("rehydrated summary missing next_action")
      else if !s.outstanding.Given? then Some("rehydrated summary missing outstanding items")
      else if FirstMissing(token.outstanding, s.outstanding.value).Some? then
        Some("rehydrated summary missing outstanding item: " +
             FirstMissing(token.outstanding, s.outstanding.value).value)
      else None
  }

  /** The summary names the token's phase, some next action and every outstanding item.
      The action itself is not compared with the token's. */
  predicate Continues(summary: Option<RawSummary>, token: Token) {
    && summary.Some?
    && summary.value.activePhase == Given(token.activePhase) && token.activePhase != ""
    && Filled(summary.value.nextAction)
    && summary.value.outstanding.Given?
    && forall x :: x in token.outstanding ==> x in summary.value.outstanding.value
  }

  lemma {:induction false} FirstMissingIff(items: seq<string>, have: seq<string>)
    ensures FirstMissing(items, have).None? <==> forall x :: x in items ==> x in have
  {
    if items != [] {
      assert items[0] in items;
      FirstMissingIff(items[1..], have);
      assert forall x :: x in items <==> x == items[0] || x in items[1..];
    }
  }

  lemma GapIff(summary: Option<RawSummary>, token: Token)
    ensures SummaryGap(summary, token).None? <==> Continues(summary, token)
  {
    if summary.Some? && summary.value.outstanding.Given? {
      FirstMissingIff(token.outstanding, summary.value.outstanding.value);
    }
  }

  lemma FirstsHolds(items: seq<string>, more: seq<string>, x: string)
    requires x in items
    ensures x in Firsts(items + more)
  {
    FirstsSpec(items + more);
  }

  /** Whatever the verdicts, inbox, commits, plan and transcript: a summary that is built
      at all passes the continuity check against its own token. */
  lemma SummaryPassesOwnToken(input: Inputs)
    requires BuildSummary(input).Ok?
    ensures ResolveToken(input.token).value.Some?
    ensures SummaryGap(Some(Offered(BuildSummary(input).value)), ResolveToken(input.token).value.value).None?
  {
    var token, s := ResolveToken(input.token).value.value, BuildSummary(input).value;
    var more := FromVerdicts(input.verdicts) + FromInbox(input.inbox);
    forall x | x in token.outstanding ensures x in s.outstanding { FirstsHolds(token.outstanding, more, x); }
    GapIff(Some(Offered(s)), token);
  }

  /** The object the source offers, passed in or read from the token's file. */
  function OfferedToken(source: TokenSource): Option<RawToken> {
    match source
    case NoToken => None
    case Passed(raw) => Some(raw)
    case Stored(file) => file
  }

  /** The source offers an object that stands for a token with something to do next. */
  ghost predicate CarriesOn(source: TokenSource, t: Token) {
    && OfferedToken(source).Some? && Spells(OfferedToken(source).value, t)
    && WellFormed(t) && Trim(t.nextAction) != ""
  }

  lemma ResolvesIff(source: TokenSource, t: Token)
    ensures ResolveToken(source) == Ok(Some(t)) <==>
      OfferedToken(source).Some? && WellFormed(t) && Spells(OfferedToken(source).value, t)
  {
    if OfferedToken(source).Some? { ValidateIff(OfferedToken(source).value, t); }
  }

  /** A summary is built exactly when the source offers the written form of some token in
      normal form whose next action is not blank, and the plan, the log and the transcript
      can be read: no verdict and no inbox event ever stops it, and whether the token was
      passed in or stored makes no difference. */
  lemma BuildsIff(input: Inputs)
    ensures BuildSummary(input).Ok? <==>
      && (exists t :: CarriesOn(input.token, t))
      && input.plan.Ok? && input.log.Ok? && !input.transcript.Malformed?
  {
    if t :| CarriesOn(input.token, t) { ResolvesIff(input.token, t); }
    var r := ResolveToken(input.token);
    if r.Ok? && r.value.Some? {
      ResolvesIff(input.token, r.value.value);
      if Trim(r.value.value.nextAction) != "" { assert CarriesOn(input.token, r.value.value); }
    }
  }

  // ---- the post-compact hook ----

  datatype Note = Note(reason: string, slug: string, activePhase: string, nextAction: string)

  datatype Task = Task(
    slug: string, branch: string, worktree: string, activePhase: string, lastCheckpoint: string,
    action: string, outstanding: seq<string>, loopKind: string, loopContinue: bool)

  function NextTask(t: Token): Task {
    Task(t.slug, t.branch, t.worktree, t.activePhase, t.lastCheckpoint, t.nextAction, t.outstanding,
         t.loopKind, t.loopContinue)
  }

  datatype SummarySource = NoSummary | NotAnObject | Object(raw: RawSummary) | FromInputs(inputs: Inputs)

  /** `head` and `treeClean` are what git or the caller reports; None when neither can. */
  datatype Context = Context(
    token: Option<RawToken>, head: Option<string>, requireClean: bool, dirtyIntent: bool,
    treeClean: Option<bool>, summary: SummarySource)

  datatype Outcome = Outcome(ok: bool, dispatched: bool, halted: bool, reason: string, task: Option<Task>)

  function ResolveSummary(source: SummarySource): Result<Option<RawSummary>> {
    match source
    case NoSummary => Ok(None)
    case NotAnObject => Err("ctx.summary must be an object")
    case Object(raw) => Ok(Some(raw))
    case FromInputs(inputs) =>
      match BuildSummary(inputs) case Ok(s) => Ok(Some(Offered(s))) case Err(e) => Err(e)
  }

  /** The summary carries on: one that is given as an object, or one that can be built. */
  predicate SummaryContinues(source: SummarySource, token: Token) {
    match source
    case Object(raw) => Continues(Some(raw), token)
    case FromInputs(inputs) => BuildSummary(inputs).Ok? && Continues(Some(Offered(BuildSummary(inputs).value)), token)
    case _ => false
  }

  /** Nothing was lost or added, nothing is left unsaved, and the summary carries on. */
  predicate Continuous(ctx: Context, token: Token) {
    && ctx.head == Some(token.headCommit)
    && (ctx.requireClean && !ctx.dirtyIntent ==> ctx.treeClean == Some(true))
    && SummaryContinues(ctx.summary, token)
  }

  /** The caller gave too little to check: no valid token, no head, or no tree state
      where one is needed. */
  predicate CannotCheck(ctx: Context) {
    || ctx.token.None? || Validate(ctx.token.value).Err?
    || ctx.head.None?
    || (ctx.head == Some(Validate(ctx.token.value).value.headCommit)
        && ctx.requireClean && !ctx.dirtyIntent && ctx.treeClean.None?)
  }

  /** The task asks for the token's next action, where and how the token says. */
  predicate TaskOf(task: Task, t: Token) {
    && task.slug == t.slug && task.branch == t.branch && task.worktree == t.worktree
    && task.activePhase == t.activePhase && task.lastCheckpoint == t.lastCheckpoint
    && task.action == t.nextAction && task.outstanding == t.outstanding
    && task.loopKind == t.loopKind && task.loopContinue == t.loopContinue
  }

  /** The hook with the sinks it was given; a missing sink drops what is sent to it. */
  class PostCompactHook {
    const hasEmit: bool
    const hasDispatch: bool
    var notes: seq<Note>
    var tasks: seq<Task>

    constructor (hasEmit: bool, hasDispatch: bool)
      ensures this.hasEmit == hasEmit && this.hasDispatch == hasDispatch && notes == [] && tasks == []
    {
      this.hasEmit, this.hasDispatch, notes, tasks := hasEmit, hasDispatch, [], [];
    }

    method Raise(reason: string, t: Token) returns (r: Outcome)
      modifies this`notes
      ensures r == Outcome(false, false, false, reason, None)
      ensures notes == old(notes) +
        (if hasEmit then [Note(reason, t.slug, t.activePhase, t.nextAction)] else [])
    {
      var note := Note(reason, t.slug, t.activePhase, t.nextAction);
      if hasEmit { notes := notes + [note]; }
      r := Outcome(false, false, false, reason, None);
    }

    /** What a verdict on token `t` sends: a failure one note and no task; a success no
        note, and the next task exactly when the token's loop continues. */
    twostate predicate Sends(t: Token, r: Outcome)
      reads this
    {
      if !r.ok then
        && r == Outcome(false, false, false, r.reason, None)
        && tasks == old(tasks)
        && notes == old(notes) + (if hasEmit then [Note(r.reason, t.slug, t.activePhase, t.nextAction)] else [])
      else
        && notes == old(notes)
        && r.dispatched == t.loopContinue && r.halted == !t.loopContinue
        && (r.task.Some? <==> t.loopContinue) && (r.task.Some? ==> TaskOf(r.task.value, t))
        && tasks == old(tasks) + (if r.task.Some? && hasDispatch then [r.task.value] else [])
    }

    /** The checks that follow once the head is known. */
    method Verify(ctx: Context, t: Token) returns (r: Result<Outcome>)
      requires ctx.head.Some?
      modifies this
      ensures r.Err? <==> ctx.head.value == t.headCommit && ctx.requireClean && !ctx.dirtyIntent && ctx.treeClean.None?
      ensures r.Err? ==> notes == old(notes) && tasks == old(tasks)
      ensures r.Ok? ==> (r.value.ok <==> Continuous(ctx, t)) && Sends(t, r.value)
    {
      var out: Outcome;
      if ctx.head.value != t.headCommit {
        out := Raise("git HEAD !== resume token head_commit", t);
        return Ok(out);
      }
      if ctx.requireClean && !ctx.dirtyIntent {
        if ctx.treeClean.None? { return Err("cannot determine tree cleanliness"); }
        if !ctx.treeClean.value {
          out := Raise("working tree is dirty at resume", t);
          return Ok(out);
        }
      }
      var summary := ResolveSummary(ctx.summary);
      if summary.Err? {
        out := Raise("rehydrated summary could not be built: " + summary.error, t);
        return Ok(out);
      }
      GapIff(summary.value, t);
      var gap := SummaryGap(summary.value, t);
      if gap.Some? {
        out := Raise(gap.value, t);
        return Ok(out);
      }
      out := Resume(t);
      r := Ok(out);
    }

    method Resume(t: Token) returns (r: Outcome)
      modifies this`tasks
      ensures r.ok && Sends(t, r)
    {
      if t.loopContinue {
        var task := NextTask(t);
        if hasDispatch { tasks := tasks + [task]; }
        return Outcome(true, true, false, "continuity verified; next task auto-issued", Some(task));
      }
      r := Outcome(true, false, true, "continuity verified; awaiting human re-entry", None);
    }

    /** A call that can check at all succeeds exactly on continuity. */
    method PostCompact(ctx: Context) returns (r: Result<Outcome>)
      modifies this
      ensures r.Err? <==> CannotCheck(ctx)
      ensures r.Err? ==> notes == old(notes) && tasks == old(tasks)
      ensures r.Ok? ==>
        var t := Validate(ctx.token.value).value;
        (r.value.ok <==> Continuous(ctx, t)) && Sends(t, r.value)
    {
      if ctx.token.None? { return Err("ctx.token (resume/1) is required"); }
      var valid := Validate(ctx.token.value);
      if valid.Err? { return Err(valid.error); }
      if ctx.head.None? { return Err("ctx.repoRoot or ctx.head_commit required"); }
      r := Verify(ctx, valid.value);
    }
  }

  /** Producer and checker agree: with the head in place and the tree as required, the
      hook passes a summary built from its own token exactly when it can be built. */
  lemma OwnSummaryContinues(ctx: Context, inputs: Inputs)
    requires !CannotCheck(ctx) && ctx.summary == FromInputs(inputs) && inputs.token == Passed(ctx.token.value)
    requires ctx.head == Some(Validate(ctx.token.value).value.headCommit)
    requires ctx.requireClean && !ctx.dirtyIntent ==> ctx.treeClean == Some(true)
    ensures Continuous(ctx, Validate(ctx.token.value).value) <==> BuildSummary(inputs).Ok?
  {
    if BuildSummary(inputs).Ok? {
      SummaryPassesOwnToken(inputs);
      GapIff(Some(Offered(BuildSummary(inputs).value)), Validate(ctx.token.value).value);
    }
  }
}
