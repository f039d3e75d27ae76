/** Sectioning of a legacy Markdown plan: one section per heading, each with an id of
    its own. */
module LegacyMarkdown {
  import opened Common
  import opened Text

  // ---- slugs ----

  function LowerChar(c: char): char { if 'A' <= c <= 'Z' then (c as int + 32) as char else c }

  predicate IsSlugChar(c: char) { 'a' <= c <= 'z' || '0' <= c <= '9' }

  /** Lower case, every run of other characters turned into one dash. */
  function Dashed(s: string): string {
    if s == "" then ""
    else
      var c, rest := LowerChar(s[0]), Dashed(s[1..]);
      if IsSlugChar(c) then [c] + rest
      else if rest != "" && rest[0] == '-' then rest
      else "-" + rest
  }

  function TrimLeft(s: string): string { if s != "" && s[0] == '-' then TrimLeft(s[1..]) else s }

  function TrimRight(s: string): string {
    if s != "" && s[|s| - 1] == '-' then TrimRight(s[..|s| - 1]) else s
  }

  function Base(heading: string): string {
    var t := TrimRight(TrimLeft(Dashed(heading)));
    if t == "" then "section" else t
  }

  /** Slug characters in runs joined by single dashes. */
  predicate SlugShaped(s: string) {
    && s != "" && IsSlugChar(s[0]) && IsSlugChar(s[|s| - 1])
    && (forall i :: 0 <= i < |s| ==> IsSlugChar(s[i]) || s[i] == '-')
    && (forall i :: 0 <= i < |s| - 1 ==> IsSlugChar(s[i]) || IsSlugChar(s[i + 1]))
  }

  /** As `SlugShaped`, but a dash may stand at either end. */
  predicate Runs(s: string) {
    && (forall i :: 0 <= i < |s| ==> IsSlugChar(s[i]) || s[i] == '-')
    && (forall i :: 0 <= i < |s| - 1 ==> IsSlugChar(s[i]) || IsSlugChar(s[i + 1]))
  }

  lemma {:induction false} DashedRuns(s: string)
    ensures Runs(Dashed(s))
  {
    if s != "" { DashedRuns(s[1..]); }
  }

  lemma TrimRuns(s: string)
    requires Runs(s)
    ensures var t := TrimRight(TrimLeft(s)); t == "" || SlugShaped(t)
  {
    var l := TrimLeft(s);
    assert l == s || (s[0] == '-' && l == TrimLeft(s[1..]) == s[1..]) by {
      if s != "" && s[0] == '-' && |s| > 1 { assert IsSlugChar(s[0 + 1]); }
    }
    if l != "" && l[|l| - 1] == '-' && |l| > 1 {
      assert IsSlugChar(l[|l| - 2]);
    }
  }

  /** Every base is a well-shaped slug, and a well-shaped slug is its own base. */
  lemma BaseShaped(heading: string)
    ensures SlugShaped(Base(heading))
    ensures SlugShaped(heading) ==> Base(heading) == heading
  {
    DashedRuns(heading);
    TrimRuns(Dashed(heading));
    if SlugShaped(heading) { ShapedDashed(heading); }
  }

  lemma {:induction false} ShapedDashed(s: string)
    requires Runs(s)
    ensures Dashed(s) == s
  {
    if s != "" {
      ShapedDashed(s[1..]);
      if s[0] == '-' && |s| > 1 { assert IsSlugChar(s[0 + 1]); }
      assert s == [s[0]] + s[1..];
    }
  }

  // ---- what a base is: the heading's words ----

  /** The text cut at every character but letters and digits of ASCII, capitals made small. */
  function Cut(s: string): (r: seq<string>)
    ensures |r| >= 1
  {
    if s == "" then [""]
    else
      var c, r := s[0], Cut(s[1..]);
      if 'A' <= c <= 'Z' then [['a' + (c - 'A')] + r[0]] + r[1..]
      else if 'a' <= c <= 'z' || '0' <= c <= '9' then [[c] + r[0]] + r[1..]
      else [""] + r
  }

  function NonEmpty(xs: seq<string>): seq<string> {
    if xs == [] then [] else (if xs[0] == "" then [] else [xs[0]]) + NonEmpty(xs[1..])
  }

  /** The heading's words: its longest runs of letters and digits, in small letters. */
  function Words(s: string): seq<string> { NonEmpty(Cut(s)) }

  predicate StartsKept(s: string) { s != "" && IsSlugChar(LowerChar(s[0])) }

  predicate EndsKept(s: string) { s != "" && IsSlugChar(LowerChar(s[|s| - 1])) }

  /** A dash stands before the words when the text starts with none. */
  function Lead(s: string): string { if s == "" || StartsKept(s) then "" else "-" }

  /** And after them when it ends with none. */
  function Trail(s: string): string { if Words(s) == [] || EndsKept(s) then "" else "-" }

  lemma NonEmptyCons(x: string, xs: seq<string>)
    ensures NonEmpty([x] + xs) == (if x == "" then [] else [x]) + NonEmpty(xs)
  {
    assert ([x] + xs)[1..] == xs;
  }

  lemma CutStarts(s: string)
    ensures StartsKept(s) <==> Cut(s)[0] != ""
  {
  }

  lemma GrownPieces(c: char, r: seq<string>)
    requires r != []
    ensures r[0] != "" ==> NonEmpty(r) == [r[0]] + NonEmpty(r[1..])
    ensures r[0] == "" ==> NonEmpty(r) == NonEmpty(r[1..])
    ensures NonEmpty([[c] + r[0]] + r[1..]) == [[c] + r[0]] + NonEmpty(r[1..])
    ensures NonEmpty([""] + r) == NonEmpty(r)
  {
    NonEmptyCons([c] + r[0], r[1..]);
    NonEmptyCons("", r);
  }

  lemma WordsCons(s: string)
    requires s != ""
    ensures var c, rest := LowerChar(s[0]), s[1..];
      if !IsSlugChar(c) then Words(s) == Words(rest)
      else if StartsKept(rest) then Words(rest) != [] && Words(s) == [[c] + Words(rest)[0]] + Words(rest)[1..]
      else Words(s) == [[c]] + Words(rest)
  {
    var c, r := LowerChar(s[0]), Cut(s[1..]);
    CutStarts(s[1..]);
    GrownPieces(c, r);
    if r[0] == "" { assert [c] + r[0] == [c]; }
  }

  lemma NoWordsInNothing()
    ensures Words("") == []
  {
    assert Cut("") == [""];
    NonEmptyCons("", []);
    assert [""] + [] == [""];
  }

  lemma {:induction false} WordsShaped(s: string)
    ensures forall i :: 0 <= i < |Words(s)| ==>
      Words(s)[i] != "" && forall k :: 0 <= k < |Words(s)[i]| ==> IsSlugChar(Words(s)[i][k])
  {
    if s != "" {
      WordsShaped(s[1..]);
      WordsCons(s);
    }
  }

  lemma {:induction false} DashedIsWords(s: string)
    ensures Dashed(s) == Lead(s) + Join(Words(s), '-') + Trail(s)
  {
    if s != "" {
      var c, rest := LowerChar(s[0]), s[1..];
      DashedIsWords(rest);
      WordsShaped(rest);
      WordsCons(s);
      EndOfTail(s);
      if IsSlugChar(c) {
        if StartsKept(rest) { KeepsWord(s); } else { NewWord(s); }
      } else {
        NoWord(s);
      }
    } else {
      NoWordsInNothing();
    }
  }

  lemma EndOfTail(s: string)
    requires s != ""
    ensures if s[1..] == "" then EndsKept(s) == StartsKept(s) else EndsKept(s) == EndsKept(s[1..])
  {
  }

  /** The first character goes on with the first word of the rest. */
  lemma KeepsWord(s: string)
    requires s != "" && StartsKept(s) && StartsKept(s[1..])
    requires Dashed(s[1..]) == Lead(s[1..]) + Join(Words(s[1..]), '-') + Trail(s[1..])
    ensures Dashed(s) == Lead(s) + Join(Words(s), '-') + Trail(s)
  {
    WordsCons(s);
    EndOfTail(s);
    KeptText(LowerChar(s[0]), Dashed(s[1..]), Words(s[1..]), Trail(s));
  }

  lemma KeptText(c: char, d: string, w: seq<string>, t: string)
    requires w != [] && d == "" + Join(w, '-') + t
    ensures [c] + d == "" + Join([[c] + w[0]] + w[1..], '-') + t
  {
    JoinGrows(c, w);
    assert [c] + (Join(w, '-') + t) == [c] + Join(w, '-') + t;
  }

  lemma JoinGrows(c: char, w: seq<string>)
    requires w != []
    ensures Join([[c] + w[0]] + w[1..], '-') == [c] + Join(w, '-')
  {
    FirstOfAll(w);
    JoinAfter(c, w[0], w[1..]);
  }

  lemma FirstOfAll<T>(w: seq<T>)
    requires w != []
    ensures [w[0]] + w[1..] == w
  {
  }

  lemma JoinAfter(c: char, x: string, rest: seq<string>)
    ensures Join([[c] + x] + rest, '-') == [c] + Join([x] + rest, '-')
  {
    if rest != [] {
      JoinWord(x, rest);
      JoinWord([c] + x, rest);
      Prepended([c], x, Join(rest, '-'));
    }
  }

  lemma Prepended(c: string, x: string, j: string)
    ensures c + x + "-" + j == c + (x + "-" + j)
  {
  }

  /** The first character is a word of its own. */
  lemma NewWord(s: string)
    requires s != "" && StartsKept(s) && !StartsKept(s[1..])
    requires Dashed(s[1..]) == Lead(s[1..]) + Join(Words(s[1..]), '-') + Trail(s[1..])
    ensures Dashed(s) == Lead(s) + Join(Words(s), '-') + Trail(s)
  {
    var c, rest := LowerChar(s[0]), s[1..];
    var w := Words(rest);
    WordsCons(s);
    EndOfTail(s);
    if rest == "" {
      NoWordsInNothing();
    } else if w == [] {
      NoWordsEnd(rest);
    } else {
      NewWordText(c, Dashed(rest), w, Trail(s));
    }
  }

  lemma NewWordText(c: char, d: string, w: seq<string>, t: string)
    requires w != [] && d == "-" + Join(w, '-') + t
    ensures [c] + d == "" + Join([[c]] + w, '-') + t
  {
    JoinWord([c], w);
    Prefixed([c], Join(w, '-'), t);
  }

  lemma JoinWord(x: string, w: seq<string>)
    requires w != []
    ensures Join([x] + w, '-') == x + "-" + Join(w, '-')
  {
    assert ([x] + w)[1..] == w;
  }

  lemma Prefixed(x: string, j: string, t: string)
    ensures x + ("-" + j + t) == x + "-" + j + t
  {
  }

  /** A text without words ends with no letter or digit. */
  lemma {:induction false} NoWordsEnd(s: string)
    requires Words(s) == []
    ensures !EndsKept(s)
  {
    if s != "" {
      WordsCons(s);
      EndOfTail(s);
      NoWordsEnd(s[1..]);
    }
  }

  /** The first character is in no word. */
  lemma NoWord(s: string)
    requires s != "" && !StartsKept(s)
    requires Dashed(s[1..]) == Lead(s[1..]) + Join(Words(s[1..]), '-') + Trail(s[1..])
    ensures Dashed(s) == Lead(s) + Join(Words(s), '-') + Trail(s)
  {
    var rest := s[1..];
    var w := Words(rest);
    WordsCons(s);
    EndOfTail(s);
    if rest == "" {
      NoWordsInNothing();
    } else if StartsKept(rest) {
      WordsCons(rest);
      WordsShaped(rest);
      JoinStarts(w);
      DashBefore(Dashed(rest), Join(w, '-'), Trail(s));
    }
  }

  lemma DashBefore(d: string, j: string, t: string)
    requires d == "" + j + t && j != "" && j[0] != '-'
    ensures d != "" && d[0] != '-' && "-" + d == "-" + j + t
  {
  }

  lemma JoinStarts(w: seq<string>)
    requires w != [] && forall i :: 0 <= i < |w| ==> w[i] != "" && forall k :: 0 <= k < |w[i]| ==> IsSlugChar(w[i][k])
    ensures Join(w, '-') != "" && IsSlugChar(Join(w, '-')[0])
  {
    assert IsSlugChar(w[0][0]);
  }

  lemma {:induction false} JoinEnds(w: seq<string>)
    requires w != [] && forall i :: 0 <= i < |w| ==> w[i] != "" && forall k :: 0 <= k < |w[i]| ==> IsSlugChar(w[i][k])
    ensures Join(w, '-') != "" && IsSlugChar(Join(w, '-')[|Join(w, '-')| - 1])
  {
    if |w| == 1 { assert IsSlugChar(w[0][|w[0]| - 1]); } else { JoinEnds(w[1..]); }
  }

  lemma TrimDashes(lead: string, t: string, trail: string)
    requires (lead == "" || lead == "-") && (trail == "" || trail == "-")
    requires t != "" && IsSlugChar(t[0]) && IsSlugChar(t[|t| - 1])
    ensures TrimRight(TrimLeft(lead + t + trail)) == t
  {
    var s := lead + t + trail;
    assert TrimLeft(s) == t + trail by {
      if lead == "-" {
        assert s[1..] == t + trail && (t + trail)[0] == t[0];
      } else {
        assert s == t + trail && s[0] == t[0];
      }
    }
    if trail == "-" { assert (t + trail)[..|t + trail| - 1] == t; } else { assert t + trail == t; }
  }

  /** A base is the heading's words with dashes between, or "section" when it has none. */
  lemma BaseIsWords(heading: string)
    ensures Base(heading) == if Words(heading) == [] then "section" else Join(Words(heading), '-')
  {
    var w := Words(heading);
    DashedIsWords(heading);
    if w == [] {
      assert Dashed(heading) == "" || Dashed(heading) == "-";
      assert "-"[1..] == "";
    } else {
      WordsShaped(heading);
      JoinStarts(w);
      JoinEnds(w);
      TrimDashes(Lead(heading), Join(w, '-'), Trail(heading));
    }
  }

  /** The n-th name tried for a base. */
  function Candidate(base: string, n: nat): string { if n <= 1 then base else base + "-" + Decimal(n) }

  lemma CandidatesDiffer(base: string, m: nat, n: nat)
    requires 1 <= m < n
    ensures Candidate(base, m) != Candidate(base, n)
  {
    if m > 1 && Candidate(base, m) == Candidate(base, n) {
      assert Decimal(m) == Candidate(base, m)[|base| + 1..] == Candidate(base, n)[|base| + 1..] == Decimal(n);
      DecimalRoundTrip(m);
      DecimalRoundTrip(n);
    }
  }

  /** The first n-1 names tried are all taken. */
  ghost predicate Taken(seen: set<string>, base: string, n: nat) {
    forall k :: 1 <= k < n ==> Candidate(base, k) in seen
  }

  lemma {:induction false} TakenBound(seen: set<string>, base: string, n: nat)
    requires 1 <= n && Taken(seen, base, n)
    ensures n - 1 <= |seen|
    decreases n
  {
    if n > 1 {
      var last := Candidate(base, n - 1);
      forall k | 1 <= k < n - 1 ensures Candidate(base, k) in seen - {last} {
        CandidatesDiffer(base, k, n - 1);
      }
      TakenBound(seen - {last}, base, n - 1);
    }
  }

  /** The first free name from the n-th on. */
  ghost function FreeFrom(seen: set<string>, base: string, n: nat): (id: string)
    requires 1 <= n && Taken(seen, base, n)
    ensures id !in seen
    decreases |seen| + 1 - n
  {
    TakenBound(seen, base, n);
    if Candidate(base, n) !in seen then Candidate(base, n)
    else
      TakenBound(seen, base, n + 1);
      FreeFrom(seen, base, n + 1)
  }

  ghost function FreeId(seen: set<string>, base: string): string { FreeFrom(seen, base, 1) }

  /** The search loop; it stops within one more attempt than there are names taken. */
  method Slugify(seen: set<string>, heading: string) returns (id: string, attempts: nat)
    ensures id == FreeId(seen, Base(heading)) && id !in seen
    ensures attempts <= |seen| + 1
    ensures 1 <= attempts && id == if attempts == 1 then Base(heading) else Base(heading) + "-" + Decimal(attempts)
    ensures attempts > 1 ==> Base(heading) in seen
    ensures forall k :: 2 <= k < attempts ==> Base(heading) + "-" + Decimal(k) in seen
  {
    var base := Base(heading);
    id := base;
    var n := 1;
    TakenBound(seen, base, n);
    while id in seen
      invariant 1 <= n <= |seen| + 1 && id == Candidate(base, n) && Taken(seen, base, n)
      invariant FreeId(seen, base) == FreeFrom(seen, base, n)
      decreases |seen| + 1 - n
    {
      TakenBound(seen, base, n + 1);
      n := n + 1;
      id := base + "-" + Decimal(n);
    }
    attempts := n;
    assert n > 1 ==> Candidate(base, 1) in seen;
    assert forall k :: 2 <= k < n ==> Candidate(base, k) == base + "-" + Decimal(k);
  }

  // ---- lines ----

  /** Carriage returns, alone or before a line feed, become line feeds. */
  function Normalized(s: string): string {
    if s == "" then ""
    else if s[0] == '\r' then "\n" + Normalized(if |s| > 1 && s[1] == '\n' then s[2..] else s[1..])
    else [s[0]] + Normalized(s[1..])
  }

  function LinesOf(text: string): (r: seq<string>)
    ensures |r| >= 1
  {
    Split(Normalized(text), '\n')
  }

  function Hashes(line: string): nat { if line != "" && line[0] == '#' then 1 + Hashes(line[1..]) else 0 }

  /** One to six hash signs, white space, and the rest of the line. */
  function HeadingOf(line: string): Option<string> {
    var n := Hashes(line);
    if 1 <= n <= 6 && n < |line| && IsSpace(line[n]) then
      var text := TrimStart(line[n..]);
      if '\U{2028}' in text || '\U{2029}' in text then None else Some(text)
    else None
  }

  /** The line is one to six hash signs, white space, and `text`, which starts with none
      and holds no line separator. */
  predicate IsHeading(line: string, n: nat, k: nat, text: string) {
    && 1 <= n <= 6 && n < k <= |line|
    && (forall i :: 0 <= i < n ==> line[i] == '#')
    && (forall i :: n <= i < k ==> IsSpace(line[i]))
    && line[k..] == text && (text != "" ==> !IsSpace(text[0]))
    && '\U{2028}' !in text && '\U{2029}' !in text
  }

  ghost predicate HeadingLine(line: string, text: string) { exists n, k :: IsHeading(line, n, k, text) }

  lemma {:induction false} HashesCount(line: string, n: nat)
    requires n <= |line| && (forall i :: 0 <= i < n ==> line[i] == '#') && (n < |line| ==> line[n] != '#')
    ensures Hashes(line) == n
  {
    if n > 0 { HashesCount(line[1..], n - 1); }
  }

  lemma {:induction false} HashesAre(line: string)
    ensures Hashes(line) <= |line| && forall i :: 0 <= i < Hashes(line) ==> line[i] == '#'
  {
    if line != "" && line[0] == '#' { HashesAre(line[1..]); }
  }

  lemma {:induction false} StartTrimmedAt(s: string, j: nat)
    requires j <= |s| && (forall i :: 0 <= i < j ==> IsSpace(s[i])) && (j < |s| ==> !IsSpace(s[j]))
    ensures TrimStart(s) == s[j..]
  {
    if j > 0 {
      StartTrimmedAt(s[1..], j - 1);
      assert s[1..][j - 1..] == s[j..];
    }
  }

  /** What counts as a heading, and its text. */
  lemma HeadingIff(line: string, text: string)
    ensures HeadingOf(line) == Some(text) <==> HeadingLine(line, text)
  {
    if HeadingOf(line) == Some(text) { HeadingFound(line, text); }
    if n, k :| IsHeading(line, n, k, text) { HeadingRead(line, n, k, text); }
  }

  lemma HeadingFound(line: string, text: string)
    requires HeadingOf(line) == Some(text)
    ensures HeadingLine(line, text)
  {
    var n := Hashes(line);
    HashesAre(line);
    var i := StartTrimmed(line[n..]);
    assert i > 0 && line[n..][i..] == line[n + i..];
    forall m | n <= m < n + i ensures IsSpace(line[m]) { assert line[m] == line[n..][m - n]; }
    if n + i < |line| { assert text[0] == line[n..][i]; }
    assert IsHeading(line, n, n + i, text);
  }

  lemma HeadingRead(line: string, n: nat, k: nat, text: string)
    requires IsHeading(line, n, k, text)
    ensures HeadingOf(line) == Some(text)
  {
    assert IsSpace(line[n]) && line[n] != '#';
    HashesCount(line, n);
    if k < |line| { assert line[n..][k - n] == text[0]; }
    StartTrimmedAt(line[n..], k - n);
    assert line[n..][k - n..] == line[k..];
  }

  /** The lines with their ends between: a line feed, a carriage return, or both. */
  function Written(lines: seq<string>, ends: seq<string>): string
    requires |lines| == |ends| + 1
  {
    if ends == [] then lines[0] else lines[0] + ends[0] + Written(lines[1..], ends[1..])
  }

  predicate IsLineEnd(end: string) { end == "\n" || end == "\r" || end == "\r\n" }

  /** A return is an end of its own only where no line feed follows at once. */
  predicate EndsApart(lines: seq<string>, ends: seq<string>)
    requires |lines| == |ends| + 1
  {
    forall i :: 0 <= i < |ends| ==>
      IsLineEnd(ends[i]) && (ends[i] == "\r" && lines[i + 1] == "" && i + 1 < |ends| ==> ends[i + 1] != "\n")
  }

  lemma {:induction false} NormalizedLine(line: string, rest: string)
    requires '\r' !in line && (rest != "" ==> rest[0] == '\r' || rest[0] == '\n')
    ensures Normalized(line + rest) == line + Normalized(rest)
  {
    if line == "" {
      assert line + rest == rest;
    } else {
      NormalizedLine(line[1..], rest);
      assert (line + rest)[1..] == line[1..] + rest;
      assert [line[0]] + (line[1..] + Normalized(rest)) == line + Normalized(rest);
    }
  }

  lemma NormalizedEnd(end: string, rest: string)
    requires IsLineEnd(end) && (end == "\r" && rest != "" ==> rest[0] != '\n')
    ensures Normalized(end + rest) == "\n" + Normalized(rest)
  {
    var s := end + rest;
    if end == "\r\n" {
      assert s[0] == '\r' && s[1] == '\n' && s[2..] == rest;
    } else {
      assert s[0] == end[0] && s[1..] == rest;
      if rest != "" { assert s[1] == rest[0]; }
    }
  }

  lemma OneMoreLine(line: string, end: string, more: string)
    requires '\r' !in line && '\n' !in line && IsLineEnd(end)
    requires end == "\r" && more != "" ==> more[0] != '\n'
    ensures LinesOf(line + end + more) == [line] + LinesOf(more)
  {
    NormalizedEnd(end, more);
    NormalizedLine(line, end + more);
    assert line + (end + more) == line + end + more;
    assert line + ("\n" + Normalized(more)) == line + ['\n'] + Normalized(more);
    SplitCons(line, Normalized(more), '\n');
  }

  lemma LastLine(line: string)
    requires '\r' !in line && '\n' !in line
    ensures LinesOf(line) == [line]
  {
    NormalizedLine(line, "");
    assert line + "" == line;
    SplitNone(line, '\n');
  }

  /** Lines written with any of the three ends are read back as those lines. */
  lemma {:induction false} LinesReadBack(lines: seq<string>, ends: seq<string>)
    requires |lines| == |ends| + 1 && EndsApart(lines, ends)
    requires forall i :: 0 <= i < |lines| ==> '\r' !in lines[i] && '\n' !in lines[i]
    ensures LinesOf(Written(lines, ends)) == lines
    decreases |ends|
  {
    if ends == [] {
      LastLine(lines[0]);
    } else {
      StartOfWritten(lines, ends);
      LinesReadBack(lines[1..], ends[1..]);
      OneMoreLine(lines[0], ends[0], Written(lines[1..], ends[1..]));
      assert [lines[0]] + lines[1..] == lines;
    }
  }

  /** Behind a lone return no line feed follows. */
  lemma StartOfWritten(lines: seq<string>, ends: seq<string>)
    requires |lines| == |ends| + 1 && ends != [] && EndsApart(lines, ends)
    requires forall i :: 0 <= i < |lines| ==> '\r' !in lines[i] && '\n' !in lines[i]
    ensures EndsApart(lines[1..], ends[1..])
    ensures var more := Written(lines[1..], ends[1..]); ends[0] == "\r" && more != "" ==> more[0] != '\n'
  {
    var l, e := lines[1..], ends[1..];
    forall i | 0 <= i < |e|
      ensures IsLineEnd(e[i]) && (e[i] == "\r" && l[i + 1] == "" && i + 1 < |e| ==> e[i + 1] != "\n")
    {
      assert e[i] == ends[i + 1] && l[i + 1] == lines[i + 2] && IsLineEnd(ends[i + 1]);
      if i + 1 < |e| { assert e[i + 1] == ends[i + 2]; }
    }
    if ends[0] == "\r" && lines[1] == "" && e != [] {
      assert ends[0 + 1] != "\n" && IsLineEnd(e[0]);
    }
  }

  // ---- the parser ----

  datatype Section = Section(id: string, heading: string, md: string)

  function AddLine(md: string, line: string): string { md + (if md != "" then "\n" else "") + line }

  datatype Doc = Doc(sections: seq<Section>, cur: Option<Section>, seen: set<string>)

  /** The table of names is a plain object, which has an inherited member of this name. */
  const START := Doc([], None, {"constructor"})

  function Closed(doc: Doc): seq<Section> {
    doc.sections + if doc.cur.Some? then [doc.cur.value] else []
  }

  /** A new section becomes the current one; the one before it is complete. */
  ghost function Open(doc: Doc, name: string, heading: string, md: string): Doc {
    var id := FreeId(doc.seen, Base(name));
    Doc(Closed(doc), Some(Section(id, heading, md)), doc.seen + {id})
  }

  ghost function Read(doc: Doc, line: string): Doc {
    var h := HeadingOf(line);
    if h.Some? then Open(doc, h.value, h.value, "")
    else if doc.cur.Some? then doc.(cur := Some(doc.cur.value.(md := AddLine(doc.cur.value.md, line))))
    else Open(doc, "intro", "Introduction", line)
  }

  ghost function ReadAll(doc: Doc, lines: seq<string>): Doc
    decreases |lines|
  {
    if lines == [] then doc else ReadAll(Read(doc, lines[0]), lines[1..])
  }

  method ParseLegacyMarkdown(text: string) returns (sections: seq<Section>, title: string)
    ensures sections == Closed(ReadAll(START, LinesOf(text)))
    ensures title == if sections != [] && sections[0].heading != "" then sections[0].heading else "Legacy plan"
  {
    var lines := LinesOf(text);
    sections := [];
    var cur: Option<Section> := None;
    var seen := {"constructor"};
    assert lines[0..] == lines;
    for i := 0 to |lines|
      invariant ReadAll(START, lines) == ReadAll(Doc(sections, cur, seen), lines[i..])
    {
      var line := lines[i];
      var h := HeadingOf(line);
      assert lines[i..][0] == line && lines[i..][1..] == lines[i + 1..];
      ghost var doc := Doc(sections, cur, seen);
      if h.Some? {
        if cur.Some? { sections := sections + [cur.value]; }
        var id, _ := Slugify(seen, h.value);
        seen := seen + {id};
        cur := Some(Section(id, h.value, ""));
      } else if cur.Some? {
        cur := Some(cur.value.(md := AddLine(cur.value.md, line)));
      } else {
        var id, _ := Slugify(seen, "intro");
        seen := seen + {id};
        cur := Some(Section(id, "Introduction", line));
      }
      assert Doc(sections, cur, seen) == Read(doc, line);
    }
    if cur.Some? { sections := sections + [cur.value]; }
    title := if sections != [] && sections[0].heading != "" then sections[0].heading else "Legacy plan";
  }

  // ---- ids ----

  ghost predicate DistinctIds(sections: seq<Section>) {
    forall i, j :: 0 <= i < j < |sections| ==> sections[i].id != sections[j].id
  }

  ghost predicate NamesOk(doc: Doc) {
    && DistinctIds(Closed(doc))
    && (forall i :: 0 <= i < |Closed(doc)| ==> Closed(doc)[i].id in doc.seen && Closed(doc)[i].id != "constructor")
    && "constructor" in doc.seen
  }

  lemma ReadKeepsNames(doc: Doc, line: string)
    requires NamesOk(doc)
    ensures NamesOk(Read(doc, line))
  {
    var next := Read(doc, line);
    if HeadingOf(line).None? && doc.cur.Some? {
      assert forall i :: 0 <= i < |Closed(doc)| ==> Closed(next)[i].id == Closed(doc)[i].id;
    } else {
      assert Closed(next) == Closed(doc) + [next.cur.value];
    }
  }

  lemma {:induction false} ReadAllKeepsNames(doc: Doc, lines: seq<string>)
    requires NamesOk(doc)
    ensures NamesOk(ReadAll(doc, lines))
    decreases |lines|
  {
    if lines != [] {
      ReadKeepsNames(doc, lines[0]);
      ReadAllKeepsNames(Read(doc, lines[0]), lines[1..]);
    }
  }

  // ---- the outline, read off the text directly ----

  function Prose(lines: seq<string>): (n: nat)
    ensures n <= |lines|
    ensures n < |lines| ==> HeadingOf(lines[n]).Some?
  {
    if lines == [] || HeadingOf(lines[0]).Some? then 0 else 1 + Prose(lines[1..])
  }

  /** Lines joined by line feeds, blank ones at the start dropped. */
  function Body(lines: seq<string>): string {
    if lines != [] && lines[0] == "" then Body(lines[1..]) else Join(lines, '\n')
  }

  /** Each heading with the text up to the next one. */
  function Outline(lines: seq<string>): seq<(string, string)>
    requires lines == [] || HeadingOf(lines[0]).Some?
    decreases |lines|
  {
    if lines == [] then []
    else
      var n := Prose(lines[1..]);
      [(HeadingOf(lines[0]).value, Body(lines[1..][..n]))] + Outline(lines[1..][n..])
  }

  /** The whole document: an introduction when it does not start with a heading. */
  function Whole(lines: seq<string>): seq<(string, string)> {
    var n := Prose(lines);
    (if n > 0 then [("Introduction", Body(lines[..n]))] else []) + Outline(lines[n..])
  }

  function Contents(sections: seq<Section>): seq<(string, string)> {
    if sections == [] then [] else [(sections[0].heading, sections[0].md)] + Contents(sections[1..])
  }

  /** `md` with more lines added one by one. */
  function AddLines(md: string, lines: seq<string>): string
    decreases |lines|
  {
    if lines == [] then md else AddLines(AddLine(md, lines[0]), lines[1..])
  }

  lemma {:induction false} AddLinesJoins(md: string, lines: seq<string>)
    requires md != ""
    ensures AddLines(md, lines) == Join([md] + lines, '\n')
    decreases |lines|
  {
    assert ([md] + lines)[1..] == lines;
    if lines != [] {
      var more := AddLine(md, lines[0]);
      AddLinesJoins(more, lines[1..]);
      assert ([more] + lines[1..])[1..] == lines[1..];
      if |lines| > 1 {
        assert more + ['\n'] + Join(lines[1..], '\n') == md + ['\n'] + (lines[0] + ['\n'] + Join(lines[1..], '\n'));
      }
    }
  }

  lemma {:induction false} AddLinesIsBody(lines: seq<string>)
    ensures AddLines("", lines) == Body(lines)
    decreases |lines|
  {
    if lines != [] {
      assert AddLine("", lines[0]) == lines[0];
      if lines[0] == "" {
        AddLinesIsBody(lines[1..]);
      } else {
        AddLinesJoins(lines[0], lines[1..]);
        assert [lines[0]] + lines[1..] == lines;
      }
    }
  }

  lemma {:induction false} ContentsAppend(s: seq<Section>, t: seq<Section>)
    ensures Contents(s + t) == Contents(s) + Contents(t)
    decreases |s|
  {
    if s == [] {
      assert s + t == t;
    } else {
      assert (s + t)[1..] == s[1..] + t;
      ContentsAppend(s[1..], t);
    }
  }

  lemma ProseStep(lines: seq<string>, md: string)
    requires lines != [] && HeadingOf(lines[0]).None?
    ensures var n, rest := Prose(lines), lines[1..];
      && n == Prose(rest) + 1 && lines[n..] == rest[n - 1..]
      && AddLines(md, lines[..n]) == AddLines(AddLine(md, lines[0]), rest[..n - 1])
  {
    var n := Prose(lines);
    assert lines[..n][0] == lines[0] && lines[..n][1..] == lines[1..][..n - 1];
  }

  lemma OutlineStep(lines: seq<string>)
    requires lines != [] && HeadingOf(lines[0]).Some?
    ensures var rest := lines[1..]; var n := Prose(rest);
      Outline(lines) == [(HeadingOf(lines[0]).value, AddLines("", rest[..n]))] + Outline(rest[n..])
  {
    AddLinesIsBody(lines[1..][..Prose(lines[1..])]);
  }

  /** With a section open: its text goes on to the next heading, then the outline. */
  ghost predicate Reads(doc: Doc, lines: seq<string>)
    requires doc.cur.Some?
  {
    var n, c := Prose(lines), doc.cur.value;
    Contents(Closed(ReadAll(doc, lines))) ==
      Contents(doc.sections) + [(c.heading, AddLines(c.md, lines[..n]))] + Outline(lines[n..])
  }

  lemma ReadsProse(doc: Doc, lines: seq<string>)
    requires doc.cur.Some? && lines != [] && HeadingOf(lines[0]).None?
    requires Reads(Read(doc, lines[0]), lines[1..])
    ensures Reads(doc, lines)
  {
    ProseStep(lines, doc.cur.value.md);
  }

  lemma OpensSection(doc: Doc, line: string)
    requires HeadingOf(line).Some?
    ensures var next := Read(doc, line);
      && next.sections == Closed(doc) && next.cur.Some?
      && next.cur.value.heading == HeadingOf(line).value && next.cur.value.md == ""
  {
  }

  lemma NoProse(lines: seq<string>, md: string)
    requires lines != [] && HeadingOf(lines[0]).Some?
    ensures Prose(lines) == 0 && AddLines(md, lines[..0]) == md && lines[0..] == lines
  {
    assert lines[..0] == [];
  }

  lemma ClosedContents(doc: Doc)
    requires doc.cur.Some?
    ensures Contents(Closed(doc)) == Contents(doc.sections) + [(doc.cur.value.heading, doc.cur.value.md)]
  {
    ContentsAppend(doc.sections, [doc.cur.value]);
  }

  lemma Regroup<T>(a: seq<T>, b: seq<T>, c: seq<T>)
    ensures a + b + c == a + (b + c)
  {
  }

  lemma ReadsHeading(doc: Doc, lines: seq<string>)
    requires doc.cur.Some? && lines != [] && HeadingOf(lines[0]).Some?
    requires Reads(Read(doc, lines[0]), lines[1..])
    ensures Reads(doc, lines)
  {
    var rest := lines[1..];
    var n, h := Prose(rest), HeadingOf(lines[0]).value;
    OpensSection(doc, lines[0]);
    ClosedContents(doc);
    OutlineStep(lines);
    NoProse(lines, doc.cur.value.md);
    Regroup(Contents(Closed(doc)), [(h, AddLines("", rest[..n]))], Outline(rest[n..]));
  }

  lemma {:induction false} ReadsOutline(doc: Doc, lines: seq<string>)
    requires doc.cur.Some?
    ensures Reads(doc, lines)
    decreases |lines|
  {
    if lines == [] {
      ClosedContents(doc);
    } else {
      ReadsOutline(Read(doc, lines[0]), lines[1..]);
      if HeadingOf(lines[0]).None? { ReadsProse(doc, lines); } else { ReadsHeading(doc, lines); }
    }
  }

  /** The first heading's section open, the rest reads as the whole document. */
  lemma AfterHeading(next: Doc, lines: seq<string>)
    requires lines != [] && HeadingOf(lines[0]).Some?
    requires next.sections == [] && next.cur.Some? && Reads(next, lines[1..])
    requires next.cur.value.heading == HeadingOf(lines[0]).value && next.cur.value.md == ""
    ensures Contents(Closed(ReadAll(next, lines[1..]))) == Whole(lines)
  {
    OutlineStep(lines);
    WholeFromHeading(lines);
    assert Contents(next.sections) == [];
  }

  lemma StartsWithHeading(lines: seq<string>)
    requires lines != [] && HeadingOf(lines[0]).Some?
    ensures Contents(Closed(ReadAll(START, lines))) == Whole(lines)
  {
    OpensSection(START, lines[0]);
    ReadsOutline(Read(START, lines[0]), lines[1..]);
    AfterHeading(Read(START, lines[0]), lines);
  }

  lemma WholeFromHeading(lines: seq<string>)
    requires lines != [] && HeadingOf(lines[0]).Some?
    ensures Whole(lines) == Outline(lines)
  {
    assert lines[0..] == lines;
  }

  lemma WholeOfText(lines: seq<string>)
    requires lines != [] && HeadingOf(lines[0]).None?
    ensures var n := Prose(lines[1..]);
      Whole(lines) == [("Introduction", AddLines(lines[0], lines[1..][..n]))] + Outline(lines[1..][n..])
  {
    var rest := lines[1..];
    var n := Prose(rest);
    var prose := lines[..n + 1];
    assert prose[0] == lines[0] && prose[1..] == rest[..n];
    assert AddLine("", lines[0]) == lines[0];
    AddLinesIsBody(prose);
    assert lines[n + 1..] == rest[n..];
  }

  lemma StartsWithText(lines: seq<string>)
    requires lines != [] && HeadingOf(lines[0]).None?
    ensures Contents(Closed(ReadAll(START, lines))) == Whole(lines)
  {
    WholeOfText(lines);
    ReadsOutline(Read(START, lines[0]), lines[1..]);
  }

  // ---- which id each section gets ----

  /** The first candidate of the base that is not taken. */
  ghost predicate FirstFree(taken: set<string>, base: string, id: string) {
    exists n: nat :: 1 <= n && id == (if n == 1 then base else base + "-" + Decimal(n))
                     && id !in taken && Taken(taken, base, n)
  }

  lemma {:induction false} FreeIsFirst(seen: set<string>, base: string, n: nat)
    requires 1 <= n && Taken(seen, base, n)
    ensures FirstFree(seen, base, FreeFrom(seen, base, n))
    decreases |seen| + 1 - n
  {
    TakenBound(seen, base, n);
    if Candidate(base, n) in seen {
      TakenBound(seen, base, n + 1);
      FreeIsFirst(seen, base, n + 1);
    }
  }

  /** The names the table holds after these sections. */
  ghost function UsedBy(sections: seq<Section>): set<string> {
    {"constructor"} + set i | 0 <= i < |sections| :: sections[i].id
  }

  /** What the id of a section is made from: its heading, or "intro" for text that comes first. */
  function NameOf(textFirst: bool, i: nat, heading: string): string {
    if textFirst && i == 0 then "intro" else heading
  }

  ghost predicate IdAt(textFirst: bool, sections: seq<Section>, i: nat)
    requires i < |sections|
  {
    FirstFree(UsedBy(sections[..i]), Base(NameOf(textFirst, i, sections[i].heading)), sections[i].id)
  }

  /** Each id is the first free candidate of its name, given the ids before it. */
  ghost predicate IdsInOrder(textFirst: bool, sections: seq<Section>) {
    forall i :: 0 <= i < |sections| ==> IdAt(textFirst, sections, i)
  }

  ghost predicate IdsOk(textFirst: bool, doc: Doc) {
    doc.cur.Some? && doc.seen == UsedBy(Closed(doc)) && IdsInOrder(textFirst, Closed(doc))
  }

  lemma UsedByMore(sections: seq<Section>, s: Section)
    ensures UsedBy(sections + [s]) == UsedBy(sections) + {s.id}
  {
    var all := sections + [s];
    forall x | x in UsedBy(sections) + {s.id} ensures x in UsedBy(all) {
      if x == s.id {
        assert all[|sections|].id == x;
      } else if x != "constructor" {
        var i :| 0 <= i < |sections| && sections[i].id == x;
        assert all[i].id == x;
      }
    }
  }

  lemma IdsAppend(textFirst: bool, sections: seq<Section>, s: Section)
    requires IdsInOrder(textFirst, sections)
    requires FirstFree(UsedBy(sections), Base(NameOf(textFirst, |sections|, s.heading)), s.id)
    ensures IdsInOrder(textFirst, sections + [s])
  {
    var all := sections + [s];
    forall i | 0 <= i < |all| ensures IdAt(textFirst, all, i) {
      if i < |sections| {
        assert all[..i] == sections[..i] && IdAt(textFirst, sections, i);
      } else {
        assert all[..i] == sections;
      }
    }
  }

  /** The text of the last section does not matter to the ids. */
  lemma IdsKept(textFirst: bool, sections: seq<Section>, s: Section, md: string)
    requires IdsInOrder(textFirst, sections + [s])
    ensures IdsInOrder(textFirst, sections + [s.(md := md)])
    ensures UsedBy(sections + [s.(md := md)]) == UsedBy(sections + [s])
  {
    var was, all := sections + [s], sections + [s.(md := md)];
    UsedByMore(sections, s);
    UsedByMore(sections, s.(md := md));
    forall i | 0 <= i < |all| ensures IdAt(textFirst, all, i) {
      assert all[..i] == was[..i] && IdAt(textFirst, was, i);
    }
  }

  /** Opening a section keeps the ids in order, when its name is the one for its place. */
  lemma OpenKeepsIds(textFirst: bool, doc: Doc, name: string, heading: string, md: string)
    requires doc.seen == UsedBy(Closed(doc)) && IdsInOrder(textFirst, Closed(doc))
    requires name == NameOf(textFirst, |Closed(doc)|, heading)
    ensures IdsOk(textFirst, Open(doc, name, heading, md))
  {
    var next := Open(doc, name, heading, md);
    FreeIsFirst(doc.seen, Base(name), 1);
    IdsAppend(textFirst, Closed(doc), next.cur.value);
    UsedByMore(Closed(doc), next.cur.value);
  }

  lemma ReadKeepsIds(textFirst: bool, doc: Doc, line: string)
    requires IdsOk(textFirst, doc)
    ensures IdsOk(textFirst, Read(doc, line))
  {
    var h := HeadingOf(line);
    if h.Some? {
      OpenKeepsIds(textFirst, doc, h.value, h.value, "");
    } else {
      IdsKept(textFirst, doc.sections, doc.cur.value, AddLine(doc.cur.value.md, line));
    }
  }

  lemma {:induction false} ReadAllKeepsIds(textFirst: bool, doc: Doc, lines: seq<string>)
    requires IdsOk(textFirst, doc)
    ensures IdsOk(textFirst, ReadAll(doc, lines))
    decreases |lines|
  {
    if lines != [] {
      ReadKeepsIds(textFirst, doc, lines[0]);
      ReadAllKeepsIds(textFirst, Read(doc, lines[0]), lines[1..]);
    }
  }

  lemma FirstLineKeepsIds(line: string)
    ensures IdsOk(HeadingOf(line).None?, Read(START, line))
  {
    var h := HeadingOf(line);
    assert UsedBy([]) == {"constructor"};
    if h.Some? {
      OpenKeepsIds(false, START, h.value, h.value, "");
    } else {
      OpenKeepsIds(true, START, "intro", "Introduction", line);
    }
  }

  lemma DocumentIds(lines: seq<string>)
    requires lines != []
    ensures IdsInOrder(HeadingOf(lines[0]).None?, Closed(ReadAll(START, lines)))
  {
    FirstLineKeepsIds(lines[0]);
    ReadAllKeepsIds(HeadingOf(lines[0]).None?, Read(START, lines[0]), lines[1..]);
  }

  /** Every document: the sections are its headings in order, each with the text up to
      the next, after an introduction when text comes first; each id is the first
      candidate of its heading's base, or of "intro", that is neither `constructor` nor
      the id of an earlier section, and so the ids are pairwise distinct. */
  lemma LegacySections(text: string)
    ensures var lines := LinesOf(text); var sections := Closed(ReadAll(START, lines));
      && DistinctIds(sections) && Contents(sections) == Whole(lines)
      && IdsInOrder(HeadingOf(lines[0]).None?, sections)
  {
    var lines := LinesOf(text);
    ReadAllKeepsNames(START, lines);
    DocumentIds(lines);
    if HeadingOf(lines[0]).Some? { StartsWithHeading(lines); } else { StartsWithText(lines); }
  }
}
