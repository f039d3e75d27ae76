/** The commit-reveal log: a designer commits to the hash of a bundle, the builder
    freezes, and the designer reveals a bundle that must hash to the commitment. */
module CommitReveal {
  import opened Text
  import opened Sorting

  // ---- hashing a bundle of files ----

  /** A digest written in hexadecimal; nothing is assumed of it but its alphabet. */
  type Digest = string -> string

  ghost predicate Hexadecimal(h: Digest) {
    forall x :: ':' !in h(x) && '\n' !in h(x)
  }

  /** `path` is the bundle's tag, a slash and the path below the bundle's directory. */
  datatype File = File(path: string, content: string)

  function Entry(h: Digest, f: File): string { f.path + ":" + h(f.content) }

  function Entries(h: Digest, files: seq<File>): (r: seq<string>)
    ensures |r| == |files|
    ensures forall i :: 0 <= i < |files| ==> r[i] == Entry(h, files[i])
  {
    if files == [] then [] else [Entry(h, files[0])] + Entries(h, files[1..])
  }

  /** What the outer digest covers: the salt, then each entry on its own line, sorted. */
  function Covered(h: Digest, files: seq<File>, salt: string): string {
    salt + Join(Lines(h, files), '\n')
  }

  /** An empty line, standing for the salt's, and the sorted entries. */
  function Lines(h: Digest, files: seq<File>): seq<string> {
    [""] + StableSort(LexLe, Entries(h, files))
  }

  function BundleHash(h: Digest, files: seq<File>, salt: string): string {
    "sha256:" + h(Covered(h, files, salt))
  }

  /** The texts that hashing a bundle feeds to the digest. */
  ghost function Hashed(h: Digest, files: seq<File>, salt: string): set<string> {
    {Covered(h, files, salt)} + Contents(files)
  }

  ghost function Contents(files: seq<File>): set<string> {
    set i | 0 <= i < |files| :: files[i].content
  }

  /** Hashing the two bundles met a collision: different texts with one digest. */
  ghost predicate Clash(h: Digest, a: seq<File>, b: seq<File>, salt: string) {
    exists x, y :: x in Hashed(h, a, salt) && y in Hashed(h, b, salt) && x != y && h(x) == h(y)
  }

  predicate OneLinePaths(files: seq<File>) {
    forall i :: 0 <= i < |files| ==> '\n' !in files[i].path
  }

  /** Each file on a line of its own: its path, a colon, the digest of its content. */
  function Spelled(h: Digest, files: seq<File>): string {
    if files == [] then "" else "\n" + files[0].path + ":" + h(files[0].content) + Spelled(h, files[1..])
  }

  lemma {:induction false} SpelledIsJoined(h: Digest, files: seq<File>)
    ensures Join([""] + Entries(h, files), '\n') == Spelled(h, files)
  {
    if files == [] {
      assert [""] + Entries(h, files) == [""];
    } else {
      var x, rest := Entry(h, files[0]), Entries(h, files[1..]);
      SpelledIsJoined(h, files[1..]);
      JoinBlank([x] + rest);
      JoinFirst(x, rest);
      assert x == files[0].path + ":" + h(files[0].content);
      assert "\n" + (x + Spelled(h, files[1..])) == Spelled(h, files);
    }
  }

  lemma JoinBlank(xs: seq<string>)
    requires xs != []
    ensures Join([""] + xs, '\n') == "\n" + Join(xs, '\n')
  {
    assert ([""] + xs)[1..] == xs;
  }

  lemma JoinFirst(x: string, xs: seq<string>)
    ensures Join([x] + xs, '\n') == x + Join([""] + xs, '\n')
  {
    assert ([x] + xs)[1..] == xs && ([""] + xs)[1..] == xs;
  }

  /** What is hashed: the salt, then the files spelled out in the order of their entries. */
  lemma CoveredText(h: Digest, files: seq<File>, salt: string) returns (g: seq<File>)
    ensures multiset(g) == multiset(files)
    ensures forall i, j :: 0 <= i < j < |g| ==>
      Earlier(g[i].path + ":" + h(g[i].content), g[j].path + ":" + h(g[j].content))
    ensures BundleHash(h, files, salt) == "sha256:" + h(salt + Spelled(h, g))
  {
    g := InEntryOrder(h, files);
    SpelledIsJoined(h, g);
    var e := Entries(h, g);
    forall i, j | 0 <= i < j < |g|
      ensures Earlier(g[i].path + ":" + h(g[i].content), g[j].path + ":" + h(g[j].content))
    {
      LexIff(e[i], e[j]);
    }
  }

  lemma LexOrders()
    ensures TotalPreorder(LexLe) && Antisymmetric(LexLe)
  {
    forall a, b ensures LexLe(a, b) || LexLe(b, a) { LexTotal(a, b); }
    forall a, b, c | LexLe(a, b) && LexLe(b, c) ensures LexLe(a, c) { LexTransitive(a, b, c); }
    forall a, b | LexLe(a, b) && LexLe(b, a) ensures a == b { LexAntisymmetric(a, b); }
  }

  lemma SameFilesSameEntries(h: Digest, a: seq<File>, b: seq<File>)
    requires multiset(a) == multiset(b)
    ensures multiset(Entries(h, a)) == multiset(Entries(h, b))
  {
    assert |a| == |multiset(a)| == |multiset(b)| == |b|;
    var f := Match(a, b);
    MatchedContents(Entries(h, a), Entries(h, b), f);
  }

  lemma EntryDetermines(h: Digest, f: File, g: File)
    requires Hexadecimal(h) && Entry(h, f) == Entry(h, g)
    ensures f.path == g.path && h(f.content) == h(g.content)
  {
    LastColon(f.path, h(f.content), g.path, h(g.content));
  }

  /** A text without colons is what follows the last colon. */
  lemma LastColon(p: string, x: string, q: string, y: string)
    requires p + ":" + x == q + ":" + y && ':' !in x && ':' !in y
    ensures p == q && x == y
  {
    var s := p + ":" + x;
    var i, j := |p|, |q|;
    assert s[i] == ':' && s[j] == ':';
    if i < j {
      AfterColon(p, x, j);
    } else if j < i {
      AfterColon(q, y, i);
    } else {
      assert p == s[..|p|] == q && x == s[|p| + 1..] == y;
    }
  }

  lemma AfterColon(p: string, x: string, k: int)
    requires |p| < k < |p| + 1 + |x|
    ensures (p + ":" + x)[k] in x
  {
    assert (p + ":" + x)[k] == x[k - |p| - 1];
  }

  lemma SameEntriesSameFiles(h: Digest, a: seq<File>, b: seq<File>, salt: string)
    requires Hexadecimal(h) && !Clash(h, a, b, salt)
    requires multiset(Entries(h, a)) == multiset(Entries(h, b))
    ensures multiset(a) == multiset(b)
  {
    var ea, eb := Entries(h, a), Entries(h, b);
    assert |ea| == |multiset(ea)| == |multiset(eb)| == |eb|;
    var f := Match(ea, eb);
    forall i | 0 <= i < |a| ensures a[i] == b[f[i]] {
      assert ea[i] == eb[f[i]];
      EntryDetermines(h, a[i], b[f[i]]);
      assert a[i].content in Contents(a) && b[f[i]].content in Contents(b);
    }
    MatchedContents(a, b, f);
  }

  lemma SameTail(salt: string, x: string, y: string)
    requires salt + x == salt + y
    ensures x == y
  {
    assert x == (salt + x)[|salt|..] == y;
  }

  /** The covered text determines the entries. */
  lemma CoveredDetermines(h: Digest, a: seq<File>, b: seq<File>, salt: string)
    requires Hexadecimal(h) && OneLinePaths(a) && OneLinePaths(b)
    requires Covered(h, a, salt) == Covered(h, b, salt)
    ensures multiset(Entries(h, a)) == multiset(Entries(h, b))
  {
    var la, lb := Lines(h, a), Lines(h, b);
    EntriesOneLine(h, a);
    EntriesOneLine(h, b);
    SameTail(salt, Join(la, '\n'), Join(lb, '\n'));
    SplitJoin(la, '\n');
    SplitJoin(lb, '\n');
    assert la[1..] == lb[1..];
    assert la[1..] == StableSort(LexLe, Entries(h, a)) && lb[1..] == StableSort(LexLe, Entries(h, b));
  }

  lemma EntriesOneLine(h: Digest, files: seq<File>)
    requires Hexadecimal(h) && OneLinePaths(files)
    ensures forall i :: 0 <= i < |Lines(h, files)| ==> '\n' !in Lines(h, files)[i]
  {
    var e, s := Entries(h, files), StableSort(LexLe, Entries(h, files));
    forall i | 0 <= i < |s| ensures '\n' !in s[i] {
      assert s[i] in multiset(e);
      var k :| 0 <= k < |e| && e[k] == s[i];
      assert e[k] == files[k].path + ":" + h(files[k].content);
    }
  }

  /** Files enumerated in any order hash alike; and with one-line paths two bundles of
      one salt hash alike only if they hold the same files, or if hashing them met a
      collision of the digest. */
  lemma BundleHashBinds(h: Digest, a: seq<File>, b: seq<File>, salt: string)
    requires Hexadecimal(h)
    ensures multiset(a) == multiset(b) ==> BundleHash(h, a, salt) == BundleHash(h, b, salt)
    ensures BundleHash(h, a, salt) == BundleHash(h, b, salt) && OneLinePaths(a) && OneLinePaths(b) ==>
      multiset(a) == multiset(b) || Clash(h, a, b, salt)
  {
    if multiset(a) == multiset(b) {
      SameFilesSameHash(h, a, b, salt);
    } else if
      && BundleHash(h, a, salt) == BundleHash(h, b, salt)
      && OneLinePaths(a) && OneLinePaths(b) && !Clash(h, a, b, salt)
    {
      var x, y := Covered(h, a, salt), Covered(h, b, salt);
      assert h(x) == BundleHash(h, a, salt)[7..] == h(y);
      assert x in Hashed(h, a, salt) && y in Hashed(h, b, salt);
      CoveredDetermines(h, a, b, salt);
      SameEntriesSameFiles(h, a, b, salt);
    }
  }

  lemma SameFilesSameHash(h: Digest, a: seq<File>, b: seq<File>, salt: string)
    requires multiset(a) == multiset(b)
    ensures BundleHash(h, a, salt) == BundleHash(h, b, salt)
  {
    LexOrders();
    SameFilesSameEntries(h, a, b);
    SortOrders(LexLe, Entries(h, a));
    SortOrders(LexLe, Entries(h, b));
    OrderedUnique(LexLe, StableSort(LexLe, Entries(h, a)), StableSort(LexLe, Entries(h, b)));
  }

  // ---- paths with line breaks ----

  lemma {:induction false} PrefixLe(a: string, t: string)
    ensures LexLe(a, a + t)
  {
    if a != "" {
      PrefixLe(a[1..], t);
      assert (a + t)[1..] == a[1..] + t;
    }
  }

  /** Two texts on two lines. */
  function TwoLines(x: string, y: string): string { x + "\n" + y }

  /** Two last pieces joined by the separator beforehand make no difference. */
  lemma {:induction false} JoinMerged(xs: seq<string>, x: string, y: string)
    ensures Join(xs + [x, y], '\n') == Join(xs + [TwoLines(x, y)], '\n')
  {
    if xs == [] {
      assert [x, y][1..] == [y];
    } else {
      TailOf(xs, [x, y]);
      TailOf(xs, [TwoLines(x, y)]);
      JoinMerged(xs[1..], x, y);
    }
  }

  lemma TailOf<T>(s: seq<T>, t: seq<T>)
    requires s != []
    ensures (s + t)[0] == s[0] && (s + t)[1..] == s[1..] + t
  {
  }

  /** The files of a bundle in the order of their entries. */
  lemma InEntryOrder(h: Digest, a: seq<File>) returns (g: seq<File>)
    ensures |g| == |a| && Contents(g) <= Contents(a) && multiset(g) == multiset(a)
    ensures Entries(h, g) == StableSort(LexLe, Entries(h, a)) && Ordered(LexLe, Entries(h, g))
  {
    var sorted := StableSort(LexLe, Entries(h, a));
    var f := Match(sorted, Entries(h, a));
    g := seq(|a|, i requires 0 <= i < |a| => a[f[i]]);
    MatchedContents(g, a, f);
    LexOrders();
    SortOrders(LexLe, Entries(h, a));
  }

  lemma SortedStays(s: seq<string>)
    requires Ordered(LexLe, s)
    ensures StableSort(LexLe, s) == s
  {
    LexOrders();
    SortOrders(LexLe, s);
    OrderedUnique(LexLe, StableSort(LexLe, s), s);
  }

  /** `x` in place of the last two. */
  function WithLast<T>(s: seq<T>, x: T): seq<T>
    requires |s| >= 2
  {
    s[..|s| - 2] + [x]
  }

  lemma LastTwo<T>(first: T, s: seq<T>, x: T)
    requires |s| >= 2
    ensures [first] + s == ([first] + s[..|s| - 2]) + [s[|s| - 2], s[|s| - 1]]
    ensures [first] + WithLast(s, x) == ([first] + s[..|s| - 2]) + [x]
  {
  }

  /** The last two texts as one, with a line break between. */
  function MergeLast(s: seq<string>): seq<string>
    requires |s| >= 2
  {
    WithLast(s, TwoLines(s[|s| - 2], s[|s| - 1]))
  }

  lemma MergedOrdered(s: seq<string>)
    requires |s| >= 2 && Ordered(LexLe, s)
    ensures Ordered(LexLe, MergeLast(s))
  {
    var n := |s| - 2;
    var last := TwoLines(s[n], s[n + 1]);
    assert last == s[n] + ("\n" + s[n + 1]);
    PrefixLe(s[n], "\n" + s[n + 1]);
    forall i | 0 <= i < n ensures LexLe(s[i], last) {
      LexTransitive(s[i], s[n], last);
    }
  }

  lemma MergedJoin(s: seq<string>)
    requires |s| >= 2
    ensures Join([""] + MergeLast(s), '\n') == Join([""] + s, '\n')
  {
    var x, y := s[|s| - 2], s[|s| - 1];
    LastTwo("", s, TwoLines(x, y));
    JoinMerged([""] + s[..|s| - 2], x, y);
  }

  /** The file whose path swallows the entry of another. */
  function Swallow(h: Digest, f: File, g: File): File { File(TwoLines(Entry(h, f), g.path), g.content) }

  lemma SwallowEntry(h: Digest, f: File, g: File)
    ensures Entry(h, Swallow(h, f, g)) == TwoLines(Entry(h, f), Entry(h, g))
  {
  }

  /** The bundle whose last file swallows the one before. */
  function Merged(h: Digest, g: seq<File>): seq<File>
    requires |g| >= 2
  {
    WithLast(g, Swallow(h, g[|g| - 2], g[|g| - 1]))
  }

  lemma {:induction false} EntriesSnoc(h: Digest, a: seq<File>, f: File)
    ensures Entries(h, a + [f]) == Entries(h, a) + [Entry(h, f)]
  {
    if a == [] {
      assert [] + [f] == [f];
    } else {
      TailOf(a, [f]);
      EntriesSnoc(h, a[1..], f);
    }
  }

  lemma {:induction false} EntriesTake(h: Digest, g: seq<File>, n: nat)
    requires n <= |g|
    ensures Entries(h, g[..n]) == Entries(h, g)[..n]
  {
    if n > 0 {
      assert g[..n][0] == g[0] && g[..n][1..] == g[1..][..n - 1];
      EntriesTake(h, g[1..], n - 1);
    }
  }

  lemma EntriesWithLast(h: Digest, g: seq<File>, f: File)
    requires |g| >= 2
    ensures Entries(h, WithLast(g, f)) == WithLast(Entries(h, g), Entry(h, f))
  {
    EntriesTake(h, g, |g| - 2);
    EntriesSnoc(h, g[..|g| - 2], f);
  }

  lemma MergedEntries(h: Digest, g: seq<File>)
    requires |g| >= 2
    ensures Entries(h, Merged(h, g)) == MergeLast(Entries(h, g))
  {
    EntriesWithLast(h, g, Swallow(h, g[|g| - 2], g[|g| - 1]));
    SwallowEntry(h, g[|g| - 2], g[|g| - 1]);
  }

  lemma MergedCovers(h: Digest, g: seq<File>, salt: string)
    requires |g| >= 2 && Ordered(LexLe, Entries(h, g))
    ensures Covered(h, Merged(h, g), salt) == salt + Join([""] + Entries(h, g), '\n')
  {
    MergedEntries(h, g);
    MergedOrdered(Entries(h, g));
    SortedStays(MergeLast(Entries(h, g)));
    MergedJoin(Entries(h, g));
  }

  lemma MergedContents(h: Digest, g: seq<File>)
    requires |g| >= 2
    ensures Contents(Merged(h, g)) <= Contents(g)
  {
    forall i | 0 <= i < |g| - 1 ensures Merged(h, g)[i].content in Contents(g) {
      assert Merged(h, g)[i].content == g[if i < |g| - 2 then i else |g| - 1].content;
    }
  }

  /** A path may hold a line break; so every bundle of two files or more hashes like one
      with a file fewer, whatever the digest and the salt. */
  lemma LineBreakConfuses(h: Digest, a: seq<File>, salt: string) returns (b: seq<File>)
    requires |a| >= 2
    ensures |b| == |a| - 1 && multiset(b) != multiset(a) && Contents(b) <= Contents(a)
    ensures Covered(h, b, salt) == Covered(h, a, salt) && BundleHash(h, b, salt) == BundleHash(h, a, salt)
  {
    var g := InEntryOrder(h, a);
    b := Merged(h, g);
    MergedCovers(h, g, salt);
    MergedContents(h, g);
    assert |multiset(b)| == |b| && |multiset(a)| == |a|;
  }

  lemma EntryOneLine(h: Digest, f: File)
    requires Hexadecimal(h) && '\n' !in f.path
    ensures '\n' !in Entry(h, f)
  {
  }

  lemma NoFiles(h: Digest)
    ensures Join(Lines(h, []), '\n') == ""
  {
  }

  lemma OneFile(h: Digest, f: File)
    ensures Join(Lines(h, [f]), '\n') == "\n" + Entry(h, f)
  {
    assert Entries(h, [f]) == [Entry(h, f)] && [Entry(h, f)][1..] == [];
    assert StableSort(LexLe, [Entry(h, f)]) == [Entry(h, f)];
    assert Lines(h, [f]) == ["", Entry(h, f)] && ["", Entry(h, f)][1..] == [Entry(h, f)];
  }

  lemma JoinOfMore(xs: seq<string>, c: char)
    requires |xs| >= 2
    ensures Join(xs, c) == xs[0] + ([c] + Join(xs[1..], c)) && c in Join(xs, c)
  {
    assert Join(xs, c)[|xs[0]|] == c;
  }

  lemma ManyFiles(h: Digest, b: seq<File>)
    requires |b| >= 2
    ensures Join(Lines(h, b), '\n') != "" && '\n' in Join(Lines(h, b), '\n')[1..]
  {
    var l := Lines(h, b);
    JoinOfMore(l, '\n');
    JoinOfMore(l[1..], '\n');
    assert l[0] == "" && "" + (['\n'] + Join(l[1..], '\n')) == ['\n'] + Join(l[1..], '\n');
    assert (['\n'] + Join(l[1..], '\n'))[1..] == Join(l[1..], '\n');
  }

  /** Nothing else hashes like a bundle of at most one file with a one-line path. */
  lemma FewFilesBind(h: Digest, a: seq<File>, b: seq<File>, salt: string)
    requires Hexadecimal(h) && OneLinePaths(a) && |a| <= 1 && !Clash(h, a, b, salt)
    requires Covered(h, a, salt) == Covered(h, b, salt)
    ensures multiset(a) == multiset(b)
  {
    SameTail(salt, Join(Lines(h, a), '\n'), Join(Lines(h, b), '\n'));
    NoFiles(h);
    if |a| == 1 {
      assert a == [a[0]];
      OneFile(h, a[0]);
      EntryOneLine(h, a[0]);
      assert ("\n" + Entry(h, a[0]))[1..] == Entry(h, a[0]);
    }
    if |b| >= 2 {
      ManyFiles(h, b);
    } else if |b| == 1 {
      assert b == [b[0]];
      OneFile(h, b[0]);
      assert ("\n" + Entry(h, b[0]))[1..] == Entry(h, b[0]);
      assert Entries(h, a) == Entries(h, b);
      SameEntriesSameFiles(h, a, b, salt);
    }
  }

  lemma SameHashSameText(h: Digest, a: seq<File>, b: seq<File>, salt: string)
    requires BundleHash(h, a, salt) == BundleHash(h, b, salt) && !Clash(h, a, b, salt)
    ensures Covered(h, a, salt) == Covered(h, b, salt)
  {
    var x, y := Covered(h, a, salt), Covered(h, b, salt);
    assert h(x) == BundleHash(h, a, salt)[7..] == h(y);
    assert x in Hashed(h, a, salt) && y in Hashed(h, b, salt);
  }

  /** A bundle with one-line paths is bound against every other bundle, paths of any
      kind, exactly when it has at most one file. */
  lemma BindsAloneIff(h: Digest, a: seq<File>, salt: string)
    requires Hexadecimal(h) && OneLinePaths(a) && !Clash(h, a, a, salt)
    ensures |a| <= 1 <==>
      forall b :: BundleHash(h, a, salt) == BundleHash(h, b, salt) ==>
        multiset(a) == multiset(b) || Clash(h, a, b, salt)
  {
    if |a| <= 1 {
      forall b | BundleHash(h, a, salt) == BundleHash(h, b, salt) && !Clash(h, a, b, salt)
        ensures multiset(a) == multiset(b)
      {
        SameHashSameText(h, a, b, salt);
        FewFilesBind(h, a, b, salt);
      }
    } else {
      var b := LineBreakConfuses(h, a, salt);
      assert Hashed(h, b, salt) <= Hashed(h, a, salt);
    }
  }

  // ---- the log ----

  datatype Rec =
    | Committed(round: nat, hash: string, nonce: string)
    | Frozen(round: nat, impl: string)
    | Revealed(round: nat, verified: bool, expected: string, actual: string)

  datatype Reply<+T> = Ok(value: T) | OrderingViolation | RevealMismatch

  /** The index of the last commit of a round, or the length of the log. */
  function LastCommit(log: seq<Rec>, round: nat): (i: nat)
    ensures i <= |log|
    ensures i < |log| ==> log[i].Committed? && log[i].round == round
    ensures forall j :: 0 <= j < |log| && log[j].Committed? && log[j].round == round ==> i < |log| && j <= i
  {
    if log == [] then 0
    else
      var last := |log| - 1;
      if log[last].Committed? && log[last].round == round then last
      else
        var i := LastCommit(log[..last], round);
        if i < last then i else |log|
  }

  predicate HasFrozen(log: seq<Rec>, round: nat) {
    exists i :: 0 <= i < |log| && log[i].Frozen? && log[i].round == round
  }

  datatype Op =
    | Commit(round: nat, files: seq<File>, nonce: string)
    | Freeze(round: nat, impl: string)
    | Reveal(round: nat, files: seq<File>)

  /** The record an operation appends, or None when it is out of order. */
  function Outcome(h: Digest, log: seq<Rec>, op: Op): Reply<Rec> {
    match op
    case Commit(round, files, nonce) =>
      if HasFrozen(log, round) then OrderingViolation
      else Ok(Committed(round, BundleHash(h, files, nonce), nonce))
    case Freeze(round, impl) =>
      if LastCommit(log, round) == |log| then OrderingViolation else Ok(Frozen(round, impl))
    case Reveal(round, files) =>
      var i := LastCommit(log, round);
      if i == |log| || !HasFrozen(log, round) then OrderingViolation
      else
        var actual := BundleHash(h, files, log[i].nonce);
        Ok(Revealed(round, actual == log[i].hash, log[i].hash, actual))
  }

  function Apply(h: Digest, log: seq<Rec>, op: Op): seq<Rec> {
    var r := Outcome(h, log, op);
    if r.Ok? then log + [r.value] else log
  }

  class Protocol {
    const h: Digest
    var log: seq<Rec>

    constructor (h: Digest)
      ensures this.h == h && log == []
    {
      this.h, log := h, [];
    }

    method CommitBundle(round: nat, files: seq<File>, nonce: string) returns (r: Reply<Rec>)
      modifies this`log
      ensures r == Outcome(h, old(log), Commit(round, files, nonce))
      ensures log == Apply(h, old(log), Commit(round, files, nonce))
    {
      if HasFrozen(log, round) { return OrderingViolation; }
      var rec := Committed(round, BundleHash(h, files, nonce), nonce);
      log := log + [rec];
      r := Ok(rec);
    }

    method FreezeBuild(round: nat, impl: string) returns (r: Reply<Rec>)
      modifies this`log
      ensures r == Outcome(h, old(log), Freeze(round, impl))
      ensures log == Apply(h, old(log), Freeze(round, impl))
    {
      if LastCommit(log, round) == |log| { return OrderingViolation; }
      log := log + [Frozen(round, impl)];
      r := Ok(Frozen(round, impl));
    }

    /** A reveal that does not match is recorded too, and then refused. */
    method RevealBundle(round: nat, files: seq<File>) returns (r: Reply<Rec>)
      modifies this`log
      ensures log == Apply(h, old(log), Reveal(round, files))
      ensures var out := Outcome(h, old(log), Reveal(round, files));
        r == if out.Ok? && !out.value.verified then RevealMismatch else out
    {
      var i := LastCommit(log, round);
      if i == |log| { return OrderingViolation; }
      if !HasFrozen(log, round) { return OrderingViolation; }
      var expected, actual := log[i].hash, BundleHash(h, files, log[i].nonce);
      var rec := Revealed(round, actual == expected, expected, actual);
      log := log + [rec];
      r := if actual == expected then Ok(rec) else RevealMismatch;
    }
  }

  // ---- what one operation does, through the records alone ----

  predicate CommitAt(log: seq<Rec>, round: nat, i: nat) { i < |log| && log[i].Committed? && log[i].round == round }

  predicate FreezeAt(log: seq<Rec>, round: nat, i: nat) { i < |log| && log[i].Frozen? && log[i].round == round }

  predicate LastCommitAt(log: seq<Rec>, round: nat, i: nat) {
    CommitAt(log, round, i) && forall j :: i < j < |log| ==> !CommitAt(log, round, j)
  }

  /** A commit is recorded exactly when no freeze of its round is there. */
  lemma CommitSpec(h: Digest, log: seq<Rec>, round: nat, files: seq<File>, nonce: string)
    ensures var after := Apply(h, log, Commit(round, files, nonce));
      if (exists i: nat :: FreezeAt(log, round, i)) then
        after == log && Outcome(h, log, Commit(round, files, nonce)).OrderingViolation?
      else after == log + [Committed(round, BundleHash(h, files, nonce), nonce)]
  {
    if i: nat :| FreezeAt(log, round, i) { assert HasFrozen(log, round); }
    if HasFrozen(log, round) {
      var i :| 0 <= i < |log| && log[i].Frozen? && log[i].round == round;
      assert FreezeAt(log, round, i);
    }
  }

  /** A freeze is recorded exactly when some commit of its round is there. */
  lemma FreezeSpec(h: Digest, log: seq<Rec>, round: nat, impl: string)
    ensures var after := Apply(h, log, Freeze(round, impl));
      if (exists i: nat :: CommitAt(log, round, i)) then after == log + [Frozen(round, impl)]
      else after == log && Outcome(h, log, Freeze(round, impl)).OrderingViolation?
  {
    if i: nat :| CommitAt(log, round, i) {
      assert log[i].Committed? && log[i].round == round;
    }
    if LastCommit(log, round) < |log| { assert CommitAt(log, round, LastCommit(log, round)); }
  }

  /** A reveal is recorded exactly when a commit and a freeze of its round are there; it
      holds the last commit's hash and the hash of the files under that commit's nonce,
      and whether they are equal. */
  lemma RevealSpec(h: Digest, log: seq<Rec>, round: nat, files: seq<File>)
    ensures var op := Reveal(round, files); var after := Apply(h, log, op);
      if (exists i: nat :: CommitAt(log, round, i)) && (exists i: nat :: FreezeAt(log, round, i)) then
        exists i: nat :: LastCommitAt(log, round, i) &&
          var actual := BundleHash(h, files, log[i].nonce);
          after == log + [Revealed(round, actual == log[i].hash, log[i].hash, actual)]
      else after == log && Outcome(h, log, op).OrderingViolation?
  {
    var k := LastCommit(log, round);
    if i: nat :| CommitAt(log, round, i) { assert log[i].Committed? && log[i].round == round; }
    if i: nat :| FreezeAt(log, round, i) { assert HasFrozen(log, round); }
    if k < |log| {
      assert LastCommitAt(log, round, k);
      if HasFrozen(log, round) {
        var i :| 0 <= i < |log| && log[i].Frozen? && log[i].round == round;
        assert FreezeAt(log, round, i);
      }
    }
  }

  lemma RunLast(h: Digest, ops: seq<Op>, op: Op)
    ensures Run(h, ops + [op]) == Apply(h, Run(h, ops), op)
  {
    assert (ops + [op])[..|ops|] == ops;
  }

  lemma ThenFrozen(h: Digest, ops: seq<Op>, first: Rec, impl: string)
    requires first.Committed? && Run(h, ops) == [first]
    ensures Run(h, ops + [Freeze(first.round, impl)]) == [first, Frozen(first.round, impl)]
  {
    RunLast(h, ops, Freeze(first.round, impl));
    FreezeSpec(h, [first], first.round, impl);
    assert CommitAt([first], first.round, 0);
  }

  lemma ThenRevealed(h: Digest, ops: seq<Op>, first: Rec, impl: string, shown: seq<File>)
    requires first.Committed? && Run(h, ops) == [first, Frozen(first.round, impl)]
    ensures var actual := BundleHash(h, shown, first.nonce);
      Run(h, ops + [Reveal(first.round, shown)]) ==
        [first, Frozen(first.round, impl), Revealed(first.round, actual == first.hash, first.hash, actual)]
  {
    var log := [first, Frozen(first.round, impl)];
    RunLast(h, ops, Reveal(first.round, shown));
    RevealSpec(h, log, first.round, shown);
    assert CommitAt(log, first.round, 0) && FreezeAt(log, first.round, 1);
  }

  /** A whole round from an empty log: commit, freeze and a reveal of the same files, in
      whatever order they are enumerated, end in a verified reveal. */
  lemma WholeRound(h: Digest, round: nat, files: seq<File>, nonce: string, impl: string, shown: seq<File>)
    requires multiset(shown) == multiset(files)
    ensures var hash := BundleHash(h, files, nonce);
      Run(h, [Commit(round, files, nonce)] + [Freeze(round, impl)] + [Reveal(round, shown)]) ==
        [Committed(round, hash, nonce), Frozen(round, impl), Revealed(round, true, hash, hash)]
  {
    var c, first := Commit(round, files, nonce), Committed(round, BundleHash(h, files, nonce), nonce);
    CommitSpec(h, [], round, files, nonce);
    RunLast(h, [], c);
    assert [] + [c] == [c] && [] + [first] == [first];
    ThenFrozen(h, [c], first, impl);
    ThenRevealed(h, [c] + [Freeze(round, impl)], first, impl, shown);
    SameFilesSameHash(h, shown, files, nonce);
  }

  // ---- every run ----

  function Run(h: Digest, ops: seq<Op>): seq<Rec> {
    if ops == [] then [] else Apply(h, Run(h, ops[..|ops| - 1]), ops[|ops| - 1])
  }

  /** Within a round: no commit after a freeze, a commit before every freeze, a freeze
      before every reveal. */
  predicate InOrder(log: seq<Rec>) {
    && (forall i, j :: 0 <= i < j < |log| && log[i].Frozen? && log[j].Committed? ==> log[i].round != log[j].round)
    && (forall j :: 0 <= j < |log| && log[j].Frozen? ==>
          exists i :: 0 <= i < j && log[i].Committed? && log[i].round == log[j].round)
    && (forall j :: 0 <= j < |log| && log[j].Revealed? ==>
          exists i :: 0 <= i < j && log[i].Frozen? && log[i].round == log[j].round)
  }

  lemma AppendInOrder(h: Digest, log: seq<Rec>, op: Op)
    requires InOrder(log)
    ensures InOrder(Apply(h, log, op))
  {
    var r := Outcome(h, log, op);
    if r.Ok? {
      var more := log + [r.value];
      forall j | 0 <= j < |more| && more[j].Frozen?
        ensures exists i :: 0 <= i < j && more[i].Committed? && more[i].round == more[j].round
      {
        var i: nat;
        if j == |log| { i := LastCommit(log, op.round); }
        else { i :| 0 <= i < j && log[i].Committed? && log[i].round == log[j].round; }
        assert more[i] == log[i];
      }
      forall j | 0 <= j < |more| && more[j].Revealed?
        ensures exists i :: 0 <= i < j && more[i].Frozen? && more[i].round == more[j].round
      {
        var i: nat;
        if j == |log| { i :| 0 <= i < |log| && log[i].Frozen? && log[i].round == op.round; }
        else { i :| 0 <= i < j && log[i].Frozen? && log[i].round == log[j].round; }
        assert more[i] == log[i];
      }
    }
  }

  /** Every log built by these operations is in order, whatever the order of the calls. */
  lemma {:induction false} RunInOrder(h: Digest, ops: seq<Op>)
    ensures InOrder(Run(h, ops))
  {
    if ops != [] {
      RunInOrder(h, ops[..|ops| - 1]);
      AppendInOrder(h, Run(h, ops[..|ops| - 1]), ops[|ops| - 1]);
    }
  }

  /** The m-th operation was the commit that wrote the i-th record. */
  predicate Wrote(h: Digest, ops: seq<Op>, m: nat, i: nat) {
    && m < |ops| && ops[m].Commit?
    && i < |Run(h, ops)|
    && Run(h, ops[..m]) == Run(h, ops)[..i]
    && Run(h, ops)[i] == Committed(ops[m].round, BundleHash(h, ops[m].files, ops[m].nonce), ops[m].nonce)
  }

  lemma {:induction false} CommitOrigin(h: Digest, ops: seq<Op>, i: nat) returns (m: nat)
    requires i < |Run(h, ops)| && Run(h, ops)[i].Committed?
    ensures Wrote(h, ops, m, i)
  {
    var init, last := ops[..|ops| - 1], |ops| - 1;
    var log := Run(h, init);
    if i < |log| {
      m := CommitOrigin(h, init, i);
      assert ops[..m] == init[..m];
      assert Run(h, ops)[..i] == log[..i];
    } else {
      m := last;
      assert Run(h, ops)[..i] == log;
    }
  }

  /** A reveal that verifies shows the very text a commit covered, made before anyone
      froze that round, or hashing the two bundles met a collision of the digest; with
      one-line paths in both it shows the very files, however they were enumerated. */
  lemma VerifiedRevealBinds(h: Digest, ops: seq<Op>, round: nat, files: seq<File>) returns (m: nat)
    requires Hexadecimal(h)
    requires var out := Outcome(h, Run(h, ops), Reveal(round, files)); out.Ok? && out.value.verified
    ensures m < |ops| && ops[m].Commit? && ops[m].round == round
    ensures !HasFrozen(Run(h, ops[..m]), round) && HasFrozen(Run(h, ops), round)
    ensures Covered(h, files, ops[m].nonce) == Covered(h, ops[m].files, ops[m].nonce)
      || Clash(h, files, ops[m].files, ops[m].nonce)
    ensures OneLinePaths(files) && OneLinePaths(ops[m].files) ==>
      multiset(files) == multiset(ops[m].files) || Clash(h, files, ops[m].files, ops[m].nonce)
  {
    var log := Run(h, ops);
    var i := LastCommit(log, round);
    m := CommitOrigin(h, ops, i);
    RunInOrder(h, ops);
    forall j | 0 <= j < i ensures !(log[..i][j].Frozen? && log[..i][j].round == round) {
      assert log[..i][j] == log[j];
    }
    BundleHashBinds(h, files, ops[m].files, ops[m].nonce);
    if !Clash(h, files, ops[m].files, ops[m].nonce) {
      SameHashSameText(h, files, ops[m].files, ops[m].nonce);
    }
  }

  lemma FrozenHasCommit(h: Digest, ops: seq<Op>, round: nat)
    requires HasFrozen(Run(h, ops), round)
    ensures LastCommit(Run(h, ops), round) < |Run(h, ops)|
  {
    var log := Run(h, ops);
    RunInOrder(h, ops);
    var j :| 0 <= j < |log| && log[j].Frozen? && log[j].round == round;
    var i :| 0 <= i < j && log[i].Committed? && log[i].round == log[j].round;
  }

  /** In every run a frozen round has a last commit, and revealing its files verifies, in
      any enumeration order. */
  lemma HonestRevealVerifies(h: Digest, ops: seq<Op>, round: nat) returns (m: nat)
    requires Hexadecimal(h) && HasFrozen(Run(h, ops), round)
    ensures Wrote(h, ops, m, LastCommit(Run(h, ops), round)) && ops[m].round == round
    ensures forall files :: multiset(files) == multiset(ops[m].files) ==>
      var out := Outcome(h, Run(h, ops), Reveal(round, files)); out.Ok? && out.value.verified
  {
    FrozenHasCommit(h, ops, round);
    m := CommitOrigin(h, ops, LastCommit(Run(h, ops), round));
    forall files | multiset(files) == multiset(ops[m].files)
      ensures var out := Outcome(h, Run(h, ops), Reveal(round, files)); out.Ok? && out.value.verified
    {
      BundleHashBinds(h, files, ops[m].files, ops[m].nonce);
    }
  }
}
