/** The managed block of `.plans/.gitignore`: merged into a file that is otherwise the
    user's. */
module Gitignore {
  import opened Common
  import opened Text

  /** The two marker lines, the rules between them, and the heading of a new file. */
  datatype Marks = Marks(begin: string, end: string, rules: string, heading: string)
  {
    function Block(): string { begin + rules + end }

    /** A hash sign opens each marker and stands nowhere else in the block; the third
        characters tell the markers apart; a marker is one line; the heading has neither. */
    predicate Proper() {
      && 2 < |end| <= |begin|
      && begin[0] == '#' && begin[2] == '>' && end[0] == '#' && end[2] == '<'
      && (forall k :: 0 < k < |begin| ==> begin[k] != '#')
      && (forall k :: 0 < k < |end| ==> end[k] != '#')
      && (forall k :: 0 <= k < |rules| ==> rules[k] != '#')
      && '\n' !in begin && '\n' !in end && '>' !in heading && '<' !in heading
    }
  }

  function Separator(content: string): string {
    if content != "" && content[|content| - 1] != '\n' then "\n" else ""
  }

  function Appended(m: Marks, content: string): string {
    content + Separator(content) + m.Block() + "\n"
  }

  /** The stretch `i..j` brought up to date. */
  function Refreshed(block: string, content: string, i: nat, j: nat): string
    requires i <= j <= |content|
  {
    if content[i..j] == block then content else content[..i] + block + content[j..]
  }

  /** The file's text afterwards; None stands for a file that is missing or cannot be read. */
  function Merge(m: Marks, file: Option<string>): string {
    match file
    case None => m.heading + "\n" + m.Block() + "\n"
    case Some(content) =>
      var b, e := IndexOf(content, m.begin), IndexOf(content, m.end);
      if b != -1 && e > b then Refreshed(m.Block(), content, b, e + |m.end|) else Appended(m, content)
  }

  /** The first end marker follows the first begin marker. */
  predicate HasBlock(m: Marks, content: string) {
    var b, e := IndexOf(content, m.begin), IndexOf(content, m.end);
    b != -1 && e > b
  }

  predicate NoMarkers(m: Marks, content: string) {
    IndexOf(content, m.begin) == -1 && IndexOf(content, m.end) == -1
  }

  /** The text before and after the first block. */
  function Outside(m: Marks, content: string): (string, string)
    requires HasBlock(m, content)
  {
    (content[..IndexOf(content, m.begin)], content[IndexOf(content, m.end) + |m.end|..])
  }

  // ---- where markers can stand ----

  lemma BlockHashes(m: Marks)
    requires m.Proper()
    ensures forall k :: 0 < k < |m.Block()| - |m.end| ==> m.Block()[k] != '#'
  {
    var b := m.Block();
    forall k | 0 < k < |b| - |m.end| ensures b[k] != '#' {
      if k < |m.begin| { assert b[k] == m.begin[k]; } else { assert b[k] == m.rules[k - |m.begin|]; }
    }
  }

  lemma MarkerChars(s: string, marker: string, j: int)
    requires OccursAt(s, marker, j) && |marker| > 2
    ensures s[j] == marker[0] && s[j + 2] == marker[2]
  {
    assert s[j + 0] == marker[0];
  }

  /** Where the block's parts stand in a text that holds it. */
  lemma BlockParts(m: Marks, pre: string, post: string)
    requires m.Proper()
    ensures var s := pre + m.Block() + post; var last := |pre| + |m.Block()| - |m.end|;
      && OccursAt(s, m.begin, |pre|) && OccursAt(s, m.end, last)
      && s[..|pre|] == pre && s[|pre|..|pre| + |m.Block()|] == m.Block() && s[last + |m.end|..] == post
  {
    var s, last := pre + m.Block() + post, |pre| + |m.Block()| - |m.end|;
    assert forall k :: 0 <= k < |m.begin| ==> s[|pre| + k] == m.begin[k];
    assert forall k :: 0 <= k < |m.end| ==> s[last + k] == m.end[k];
  }

  /** Inside the block its end marker stands only at the end. */
  lemma NoEndInside(m: Marks, pre: string, post: string, j: nat)
    requires m.Proper() && |pre| <= j < |pre| + |m.Block()| - |m.end|
    ensures !OccursAt(pre + m.Block() + post, m.end, j)
  {
    var s := pre + m.Block() + post;
    BlockHashes(m);
    assert s[j] == m.Block()[j - |pre|] && s[|pre| + 2] == m.begin[2];
    if OccursAt(s, m.end, j) { MarkerChars(s, m.end, j); }
  }

  /** Around a block no marker comes early: if none starts in the text before it, the
      block's own markers are the first ones, and a merge leaves the text alone. */
  lemma BlockFound(m: Marks, pre: string, post: string)
    requires m.Proper()
    requires var s := pre + m.Block() + post;
      forall j :: 0 <= j < |pre| ==> !OccursAt(s, m.begin, j) && !OccursAt(s, m.end, j)
    ensures var s := pre + m.Block() + post;
      && IndexOf(s, m.begin) == |pre|
      && IndexOf(s, m.end) == |pre| + |m.Block()| - |m.end|
      && HasBlock(m, s) && Outside(m, s) == (pre, post) && Merge(m, Some(s)) == s
  {
    var s := pre + m.Block() + post;
    BlockParts(m, pre, post);
    forall j | |pre| <= j < |pre| + |m.Block()| - |m.end| ensures !OccursAt(s, m.end, j) {
      NoEndInside(m, pre, post, j);
    }
  }

  /** A marker cannot reach over a line break. */
  lemma StopsAtLineBreak(s: string, marker: string, j: nat, n: nat)
    requires '\n' !in marker && j <= n < |s| && s[n] == '\n' && OccursAt(s, marker, j)
    ensures j + |marker| <= n
  {
    var k := n - j;
    if k < |marker| { CharOf(s, marker, j, k); }
  }

  lemma CharOf(s: string, marker: string, j: int, k: int)
    requires OccursAt(s, marker, j) && 0 <= k < |marker|
    ensures s[j + k] in marker
  {
    assert s[j + k] == marker[k];
  }

  /** Appending puts no marker before the block that was not in the file. */
  lemma AppendFound(m: Marks, content: string, marker: string, j: nat)
    requires m.Proper() && marker in [m.begin, m.end]
    requires j < |content + Separator(content)|
    ensures OccursAt(Appended(m, content), marker, j) <==> OccursAt(content, marker, j)
  {
    var pre, s := content + Separator(content), Appended(m, content);
    var n := |pre| - 1;
    assert '\n' !in marker && s[n] == pre[n] == '\n';
    if OccursAt(s, marker, j) {
      StopsAtLineBreak(s, marker, j, n);
      assert s == content + (Separator(content) + m.Block() + "\n");
      OccursInPrefix(content, Separator(content) + m.Block() + "\n", marker, j);
    }
    if OccursAt(content, marker, j) {
      assert s == content + (Separator(content) + m.Block() + "\n");
      OccursInPrefix(content, Separator(content) + m.Block() + "\n", marker, j);
    }
  }

  // ---- good files ----

  /** A missing file becomes the heading and the block. */
  lemma NewFile(m: Marks)
    requires m.Proper()
    ensures HasBlock(m, Merge(m, None)) && Outside(m, Merge(m, None)) == (m.heading + "\n", "\n")
    ensures Merge(m, Some(Merge(m, None))) == Merge(m, None)
  {
    var pre, s := m.heading + "\n", Merge(m, None);
    assert forall i :: 0 <= i < |m.heading| ==> s[i] == m.heading[i];
    forall j | 0 <= j < |pre| ensures !OccursAt(s, m.begin, j) && !OccursAt(s, m.end, j) {
      if OccursAt(s, m.begin, j) {
        StopsAtLineBreak(s, m.begin, j, |m.heading|);
        MarkerChars(s, m.begin, j);
      }
      if OccursAt(s, m.end, j) {
        StopsAtLineBreak(s, m.end, j, |m.heading|);
        MarkerChars(s, m.end, j);
      }
    }
    BlockFound(m, pre, "\n");
  }

  /** A file without markers keeps every character in front of the block, which starts on a
      line of its own: a line feed comes between when the text does not end with one. */
  lemma AppendedFile(m: Marks, content: string)
    requires m.Proper() && NoMarkers(m, content)
    ensures var r := Merge(m, Some(content));
      var between := if content == "" || content[|content| - 1] == '\n' then "" else "\n";
      && r == content + between + m.Block() + "\n"
      && HasBlock(m, r) && Outside(m, r) == (content + between, "\n")
      && Merge(m, Some(r)) == r
  {
    var pre := content + Separator(content);
    forall j | 0 <= j < |pre|
      ensures !OccursAt(Appended(m, content), m.begin, j) && !OccursAt(Appended(m, content), m.end, j)
    {
      AppendFound(m, content, m.begin, j);
      AppendFound(m, content, m.end, j);
    }
    assert Appended(m, content) == pre + m.Block() + "\n";
    BlockFound(m, pre, "\n");
  }

  /** A file with a block keeps every character outside it. */
  lemma ReplacedFile(m: Marks, content: string)
    requires m.Proper() && HasBlock(m, content)
    ensures var r := Merge(m, Some(content));
      && HasBlock(m, r) && Outside(m, r) == Outside(m, content)
      && r == Outside(m, content).0 + m.Block() + Outside(m, content).1
      && Merge(m, Some(r)) == r
  {
    var (pre, post) := Outside(m, content);
    var r := pre + m.Block() + post;
    ReplacedText(m, content);
    NoEarlierMarker(m, content);
    BlockFound(m, pre, post);
  }

  lemma ReplacedText(m: Marks, content: string)
    requires HasBlock(m, content)
    ensures Merge(m, Some(content)) == Outside(m, content).0 + m.Block() + Outside(m, content).1
  {
    RefreshedText(m.Block(), content, IndexOf(content, m.begin), IndexOf(content, m.end) + |m.end|);
  }

  lemma RefreshedText(block: string, content: string, i: nat, j: nat)
    requires i <= j <= |content|
    ensures Refreshed(block, content, i, j) == content[..i] + block + content[j..]
  {
    assert content == content[..i] + content[i..j] + content[j..];
  }

  /** Up to the end of its begin marker the merged text is the old one. */
  lemma NoEarlierMarker(m: Marks, content: string)
    requires m.Proper() && HasBlock(m, content)
    ensures var (pre, post) := Outside(m, content);
      var r := pre + m.Block() + post;
      forall j :: 0 <= j < |pre| ==> !OccursAt(r, m.begin, j) && !OccursAt(r, m.end, j)
  {
    var (pre, post) := Outside(m, content);
    var r := pre + m.Block() + post;
    var n := |pre| + |m.begin|;
    forall i | 0 <= i < n ensures r[i] == content[i] {
      if i >= |pre| { assert content[|pre| + (i - |pre|)] == m.begin[i - |pre|]; }
    }
    forall j | 0 <= j < |pre| ensures !OccursAt(r, m.begin, j) && !OccursAt(r, m.end, j) {
      SameOccurs(content, r, m.begin, j, n);
      SameOccurs(content, r, m.end, j, n);
    }
  }

  lemma SameOccurs(s: string, t: string, marker: string, j: nat, n: nat)
    requires n <= |s| && n <= |t| && j + |marker| <= n
    requires forall i :: 0 <= i < n ==> s[i] == t[i]
    ensures OccursAt(s, marker, j) == OccursAt(t, marker, j)
  {
  }

  // ---- stray markers ----

  lemma AppendKeepsFirst(m: Marks, content: string, marker: string)
    requires IndexOf(content, marker) != -1
    ensures IndexOf(Appended(m, content), marker) == IndexOf(content, marker)
  {
    IndexOfStays(content, Separator(content) + m.Block() + "\n", marker);
    assert Appended(m, content) == content + (Separator(content) + m.Block() + "\n");
  }

  /** Two markers overlap only when they start together, and then they are the same. */
  lemma MarkersApart(m: Marks, s: string, one: string, other: string, i: int, j: int)
    requires m.Proper() && one in [m.begin, m.end] && other in [m.begin, m.end] && one != other
    requires OccursAt(s, one, i) && OccursAt(s, other, j)
    ensures i + |one| <= j || j + |other| <= i
  {
    MarkerChars(s, one, i);
    MarkerChars(s, other, j);
    if i < j < i + |one| { InnerChar(m, s, one, i, j); }
    if j < i < j + |other| { InnerChar(m, s, other, j, i); }
  }

  lemma InnerChar(m: Marks, s: string, marker: string, i: int, j: int)
    requires m.Proper() && marker in [m.begin, m.end] && OccursAt(s, marker, i) && i < j < i + |marker|
    ensures s[j] != '#'
  {
    assert s[i + (j - i)] == marker[j - i];
  }

  /** A first end marker with no begin marker before it: the merge appends, again and
      again. */
  lemma StrayEndGrows(m: Marks, content: string)
    requires m.Proper() && IndexOf(content, m.end) != -1 && !HasBlock(m, content)
    ensures Merge(m, Some(content)) == Appended(m, content)
    ensures Merge(m, Some(Appended(m, content))) == Appended(m, Appended(m, content))
    ensures !HasBlock(m, Appended(m, content)) && IndexOf(Appended(m, content), m.end) != -1
  {
    var r, e := Appended(m, content), IndexOf(content, m.end);
    AppendKeepsFirst(m, content, m.end);
    var b := IndexOf(r, m.begin);
    if IndexOf(content, m.begin) != -1 {
      AppendKeepsFirst(m, content, m.begin);
    } else if b != -1 {
      MarkersApart(m, r, m.begin, m.end, b, e);
      if b + |m.begin| <= e {
        assert r == content + (Separator(content) + m.Block() + "\n");
        OccursInPrefix(content, Separator(content) + m.Block() + "\n", m.begin, b);
      }
    }
  }

  /** A begin marker without an end marker: the next merge swallows the user's text from
      that marker on. */
  lemma StrayBeginLoses(m: Marks, content: string)
    requires m.Proper() && IndexOf(content, m.begin) != -1 && IndexOf(content, m.end) == -1
    ensures Merge(m, Some(content)) == Appended(m, content)
    ensures Merge(m, Some(Appended(m, content))) == content[..IndexOf(content, m.begin)] + m.Block() + "\n"
  {
    var r, b := Appended(m, content), IndexOf(content, m.begin);
    AppendKeepsFirst(m, content, m.begin);
    AppendedEnd(m, content);
    var pre := content + Separator(content);
    var stop := |pre| + |m.Block()|;
    assert r[stop..] == "\n" && r[..b] == content[..b];
    assert HasBlock(m, r);
    ReplacedText(m, r);
    assert Outside(m, r) == (content[..b], "\n");
  }

  /** Where the first end marker stands once a block is appended to a file without one. */
  lemma AppendedEnd(m: Marks, content: string)
    requires m.Proper() && IndexOf(content, m.end) == -1
    ensures IndexOf(Appended(m, content), m.end) ==
      |content + Separator(content)| + |m.Block()| - |m.end|
  {
    var r, pre := Appended(m, content), content + Separator(content);
    assert r == pre + m.Block() + "\n";
    BlockParts(m, pre, "\n");
    forall j | 0 <= j < |pre| + |m.Block()| - |m.end| ensures !OccursAt(r, m.end, j) {
      if j < |pre| {
        AppendFound(m, content, m.end, j);
        assert !OccursAt(content, m.end, j);
      } else {
        NoEndInside(m, pre, "\n", j);
      }
    }
  }

  /** A second merge changes nothing exactly for files with neither marker, or whose
      first end marker follows their first begin marker. */
  lemma MergeSettlesIff(m: Marks, content: string)
    requires m.Proper()
    ensures Merge(m, Some(Merge(m, Some(content)))) == Merge(m, Some(content)) <==>
      NoMarkers(m, content) || HasBlock(m, content)
  {
    if NoMarkers(m, content) {
      AppendedFile(m, content);
    } else if HasBlock(m, content) {
      ReplacedFile(m, content);
    } else if IndexOf(content, m.end) != -1 {
      StrayEndGrows(m, content);
      assert |Appended(m, Appended(m, content))| > |Appended(m, content)|;
    } else {
      StrayBeginLoses(m, content);
      assert |Appended(m, content)| > IndexOf(content, m.begin) + |m.Block()| + 1;
    }
  }

  // ---- the user's text over any number of writes ----

  function Merges(m: Marks, content: string, n: nat): string {
    if n == 0 then content else Merge(m, Some(Merges(m, content, n - 1)))
  }

  /** `r` keeps the user's text: around the block if there was one, else from the start. */
  predicate Kept(m: Marks, content: string, r: string) {
    if HasBlock(m, content) then HasBlock(m, r) && Outside(m, r) == Outside(m, content) else content <= r
  }

  /** A lone begin marker has nothing behind it but a start of the block itself. */
  predicate NothingToLose(m: Marks, content: string) {
    IndexOf(content, m.begin) != -1 && IndexOf(content, m.end) == -1 ==>
      content[IndexOf(content, m.begin)..] <= m.Block() + "\n"
  }

  lemma {:induction false} SettledStays(m: Marks, content: string, n: nat)
    requires Merge(m, Some(Merge(m, Some(content)))) == Merge(m, Some(content))
    ensures n > 0 ==> Merges(m, content, n) == Merge(m, Some(content))
  {
    if n > 1 {
      SettledStays(m, content, n - 1);
    } else if n == 1 {
      assert Merges(m, content, 0) == content;
    }
  }

  predicate StrayEnd(m: Marks, content: string) { IndexOf(content, m.end) != -1 && !HasBlock(m, content) }

  lemma StrayEndStep(m: Marks, content: string)
    requires m.Proper() && StrayEnd(m, content)
    ensures content <= Merge(m, Some(content)) && StrayEnd(m, Merge(m, Some(content)))
  {
    StrayEndGrows(m, content);
    assert Appended(m, content) == content + (Separator(content) + m.Block() + "\n");
  }

  ghost predicate GrownFrom(m: Marks, content: string, r: string) { content <= r && StrayEnd(m, r) }

  lemma GrowsOn(m: Marks, content: string, r: string)
    requires m.Proper() && GrownFrom(m, content, r)
    ensures GrownFrom(m, content, Merge(m, Some(r)))
  {
    StrayEndStep(m, r);
  }

  lemma {:induction false} StrayEndKeeps(m: Marks, content: string, n: nat)
    requires m.Proper() && GrownFrom(m, content, content)
    ensures GrownFrom(m, content, Merges(m, content, n))
  {
    if n > 0 {
      StrayEndKeeps(m, content, n - 1);
      GrowsOn(m, content, Merges(m, content, n - 1));
      assert Merges(m, content, n) == Merge(m, Some(Merges(m, content, n - 1)));
    }
  }

  /** After two writes over a lone begin marker the file stays as it is. */
  lemma {:induction false} StrayBeginSettles(m: Marks, content: string, n: nat)
    requires m.Proper() && IndexOf(content, m.begin) != -1 && IndexOf(content, m.end) == -1
    ensures n == 1 ==> Merges(m, content, n) == Appended(m, content)
    ensures n > 1 ==> Merges(m, content, n) == content[..IndexOf(content, m.begin)] + m.Block() + "\n"
  {
    StrayBeginLoses(m, content);
    assert Merges(m, content, 0) == content;
    assert Merges(m, content, 1) == Appended(m, content);
    if n == 2 {
      assert Merges(m, content, n) == Merge(m, Some(Appended(m, content)));
    } else if n > 2 {
      StrayBeginSettles(m, content, n - 1);
      AppendedHasBlock(m, content);
      ReplacedFile(m, Appended(m, content));
    }
  }

  lemma AppendedHasBlock(m: Marks, content: string)
    requires m.Proper() && IndexOf(content, m.begin) != -1 && IndexOf(content, m.end) == -1
    ensures HasBlock(m, Appended(m, content))
  {
    AppendKeepsFirst(m, content, m.begin);
    AppendedEnd(m, content);
  }

  lemma SameFront(s: string, i: nat, t: string)
    requires i <= |s|
    ensures s <= s[..i] + t <==> s[i..] <= t
  {
    assert s == s[..i] + s[i..];
    if s <= s[..i] + t { assert s[i..] == (s[..i] + t)[i..|s|] == t[..|s| - i]; }
    if s[i..] <= t { assert s[i..] == t[..|s| - i]; }
  }

  lemma StrayBeginKeeps(m: Marks, content: string, n: nat)
    requires m.Proper() && IndexOf(content, m.begin) != -1 && IndexOf(content, m.end) == -1
    ensures n == 1 ==> content <= Merges(m, content, n)
    ensures n > 1 ==> (content <= Merges(m, content, n) <==> NothingToLose(m, content))
  {
    StrayBeginSettles(m, content, n);
    if n == 1 {
      assert Appended(m, content) == content + (Separator(content) + m.Block() + "\n");
    } else {
      SameFront(content, IndexOf(content, m.begin), m.Block() + "\n");
      Regroup(content[..IndexOf(content, m.begin)], m.Block(), "\n");
    }
  }

  lemma Regroup(a: string, b: string, c: string)
    ensures a + b + c == a + (b + c)
  {
  }

  lemma MergesKeep(m: Marks, content: string, n: nat)
    requires m.Proper() && NothingToLose(m, content)
    ensures Kept(m, content, Merges(m, content, n))
  {
    if n == 0 {
    } else if NoMarkers(m, content) {
      AppendedFile(m, content);
      SettledStays(m, content, n);
    } else if HasBlock(m, content) {
      ReplacedFile(m, content);
      SettledStays(m, content, n);
    } else if IndexOf(content, m.end) != -1 {
      StrayEndKeeps(m, content, n);
    } else {
      StrayBeginKeeps(m, content, n);
    }
  }

  /** Over any number of writes the user's text is kept exactly when no lone begin marker
      has other text behind it than a start of the block; else the second write loses it. */
  lemma KeptForeverIff(m: Marks, content: string)
    requires m.Proper()
    ensures (forall n :: Kept(m, content, Merges(m, content, n))) <==> NothingToLose(m, content)
    ensures Kept(m, content, Merges(m, content, 2)) <==> NothingToLose(m, content)
  {
    if NothingToLose(m, content) {
      forall n ensures Kept(m, content, Merges(m, content, n)) { MergesKeep(m, content, n); }
    } else {
      StrayBeginKeeps(m, content, 2);
      assert !Kept(m, content, Merges(m, content, 2));
    }
  }

  // ---- the plugin's own markers ----

  const EM_DASH := ['\U{2014}']
  const BEGIN_HEAD := "# >>> engineering plans (managed "
  const BEGIN_TAIL := " do not edit inside) >>>"
  const END := "# <<< engineering plans (managed) <<<"
  const PATTERNS := ["agents.json", "*.events.json", "*.notes.json", "*.oracle.jsonl",
                     "*.tmp-*", "*.lock", ".server.json", ".server.lock"]
  const HEADING_HEAD := "# Engineering plugin " + "runtime artifacts "
  const HEADING_TAIL := " auto-generated."
  const HEADING_MID := "# Plan documents (*.plan.html) "
  const HEADING_LAST := "and _assets/ stay tracked."

  const PLANS := Marks(
    BEGIN_HEAD + EM_DASH + BEGIN_TAIL,
    END,
    "\n" + Join(PATTERNS, '\n') + "\n",
    HEADING_HEAD + EM_DASH + (HEADING_TAIL + "\n" + (HEADING_MID + HEADING_LAST)))

  lemma BeginHead()
    ensures |BEGIN_HEAD| == 33 && BEGIN_HEAD[0] == '#' && BEGIN_HEAD[2] == '>' && '\n' !in BEGIN_HEAD
    ensures forall k :: 0 < k < |BEGIN_HEAD| ==> BEGIN_HEAD[k] != '#'
  {
  }

  lemma BeginTail()
    ensures |BEGIN_TAIL| == 24 && '#' !in BEGIN_TAIL && '\n' !in BEGIN_TAIL
  {
  }

  lemma EndFacts()
    ensures |END| == 37 && END[0] == '#' && END[2] == '<' && '\n' !in END
    ensures forall k :: 0 < k < |END| ==> END[k] != '#'
  {
  }

  lemma RuleFacts()
    ensures '#' !in "\n" + Join(PATTERNS, '\n') + "\n"
  {
    forall i | 0 <= i < |PATTERNS| ensures '#' !in PATTERNS[i] { }
    JoinLacks(PATTERNS, '\n', '#');
  }

  predicate Plain(s: string) { '>' !in s && '<' !in s }

  lemma PlainHead()
    ensures Plain(HEADING_HEAD)
  {
    assert Plain("# Engineering plugin ") && Plain("runtime artifacts ");
  }

  lemma PlainTail()
    ensures Plain(HEADING_TAIL)
  {
  }

  lemma PlainStart()
    ensures Plain(HEADING_MID)
  {
  }

  lemma PlainEnd()
    ensures Plain(HEADING_LAST)
  {
  }

  lemma PlainJoined(a: string, b: string, c: string)
    requires Plain(a) && Plain(b) && Plain(c)
    ensures Plain(a + "\n" + (b + c))
  {
  }

  /** The plugin's markers are proper ones, so all of the above holds of its file. */
  lemma PlansAreProper()
    ensures PLANS.Proper()
  {
    BeginHead();
    BeginTail();
    EndFacts();
    RuleFacts();
    PlainHead();
    PlainTail();
    PlainStart();
    PlainEnd();
    PlainJoined(HEADING_TAIL, HEADING_MID, HEADING_LAST);
    MadeProper(BEGIN_HEAD, BEGIN_TAIL, END, "\n" + Join(PATTERNS, '\n') + "\n",
               HEADING_HEAD, HEADING_TAIL + "\n" + (HEADING_MID + HEADING_LAST));
  }

  lemma MadeProper(head: string, tail: string, end: string, rules: string, top: string, rest: string)
    requires |head| > 2 && head[0] == '#' && head[2] == '>' && |head| + |tail| >= |end| > 2
    requires end[0] == '#' && end[2] == '<' && '\n' !in head && '\n' !in tail && '\n' !in end
    requires forall k :: 0 < k < |head| ==> head[k] != '#'
    requires '#' !in tail && forall k :: 0 < k < |end| ==> end[k] != '#'
    requires '#' !in rules && Plain(top) && Plain(rest)
    ensures Marks(head + EM_DASH + tail, end, rules, top + EM_DASH + rest).Proper()
  {
    var begin := head + EM_DASH + tail;
    forall k | 0 < k < |begin| ensures begin[k] != '#' {
      if k > |head| { assert begin[k] == tail[k - |head| - 1]; }
    }
    assert begin[0] == head[0] && begin[2] == head[2];
  }

  /** The block is its marker lines with the eight rules between them, each on its line. */
  lemma PlansBlock()
    ensures Split(PLANS.Block(), '\n') ==
      [PLANS.begin] +
      ["agents.json", "*.events.json", "*.notes.json", "*.oracle.jsonl", "*.tmp-*", "*.lock",
       ".server.json", ".server.lock"] +
      [PLANS.end]
  {
    PlansAreProper();
    PatternsOneLine();
    BlockSplits(PLANS.begin, PATTERNS, PLANS.end);
  }

  lemma PatternsOneLine()
    ensures forall i :: 0 <= i < |PATTERNS| ==> '\n' !in PATTERNS[i]
  {
    forall i | 0 <= i < |PATTERNS| ensures '\n' !in PATTERNS[i] { }
  }

  lemma BlockSplits(begin: string, rules: seq<string>, end: string)
    requires rules != [] && '\n' !in begin && '\n' !in end
    requires forall i :: 0 <= i < |rules| ==> '\n' !in rules[i]
    ensures Split(begin + ("\n" + Join(rules, '\n') + "\n") + end, '\n') == [begin] + rules + [end]
  {
    var all := [begin] + rules + [end];
    forall i | 0 <= i < |all| ensures '\n' !in all[i] {
      assert all[i] == if i == 0 then begin else if i <= |rules| then rules[i - 1] else end;
    }
    SplitJoin(all, '\n');
    BlockLines(begin, rules, end);
  }

  lemma {:induction false} JoinSnoc(xs: seq<string>, x: string)
    requires xs != []
    ensures Join(xs + [x], '\n') == Join(xs, '\n') + "\n" + x
  {
    assert (xs + [x])[1..] == xs[1..] + [x];
    if |xs| > 1 { JoinSnoc(xs[1..], x); }
  }

  lemma BlockLines(begin: string, rules: seq<string>, end: string)
    requires rules != []
    ensures Join([begin] + rules + [end], '\n') == begin + ("\n" + Join(rules, '\n') + "\n") + end
  {
    JoinSnoc([begin] + rules, end);
    assert ([begin] + rules)[1..] == rules;
  }
}
