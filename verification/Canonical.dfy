/** The text a request signature covers: a canonical query and nine joined fields. */
module Canonical {
  import opened Text
  import opened Sorting

  function NonEmpty(xs: seq<string>): (r: seq<string>) {
    if xs == [] then [] else (if xs[0] == "" then [] else [xs[0]]) + NonEmpty(xs[1..])
  }

  /** The non-empty pieces of a raw query between its ampersands. */
  function Segments(raw: string): seq<string> { NonEmpty(Split(raw, '&')) }

  function KeyOf(segment: string): string { Split(segment, '=')[0] }

  /** By key first, then by the whole segment. */
  predicate SegmentLe(a: string, b: string) {
    if KeyOf(a) == KeyOf(b) then LexLe(a, b) else LexLe(KeyOf(a), KeyOf(b))
  }

  function CanonicalQuery(raw: string): string {
    Join(StableSort(SegmentLe, Segments(raw)), '&')
  }

  lemma SegmentLeOrders()
    ensures TotalPreorder(SegmentLe) && Antisymmetric(SegmentLe)
  {
    forall a, b ensures SegmentLe(a, b) || SegmentLe(b, a) {
      LexTotal(a, b);
      LexTotal(KeyOf(a), KeyOf(b));
    }
    forall a, b, c | SegmentLe(a, b) && SegmentLe(b, c) ensures SegmentLe(a, c) {
      SegmentLeTransitive(a, b, c);
    }
    forall a, b | SegmentLe(a, b) && SegmentLe(b, a) ensures a == b {
      if KeyOf(a) == KeyOf(b) { LexAntisymmetric(a, b); } else { LexAntisymmetric(KeyOf(a), KeyOf(b)); }
    }
  }

  lemma SegmentLeTransitive(a: string, b: string, c: string)
    requires SegmentLe(a, b) && SegmentLe(b, c)
    ensures SegmentLe(a, c)
  {
    var ka, kb, kc := KeyOf(a), KeyOf(b), KeyOf(c);
    if ka == kb == kc {
      LexTransitive(a, b, c);
    } else if ka != kb && kb != kc {
      LexTransitive(ka, kb, kc);
      if ka == kc { LexAntisymmetric(ka, kb); }
    }
  }

  predicate Pieces(xs: seq<string>, c: char) {
    forall i :: 0 <= i < |xs| ==> xs[i] != "" && c !in xs[i]
  }

  lemma {:induction false} NonEmptyPieces(xs: seq<string>, c: char)
    requires forall i :: 0 <= i < |xs| ==> c !in xs[i]
    ensures Pieces(NonEmpty(xs), c)
  {
    if xs != [] { NonEmptyPieces(xs[1..], c); }
  }

  lemma {:induction false} NonEmptyKeeps(xs: seq<string>)
    requires forall i :: 0 <= i < |xs| ==> xs[i] != ""
    ensures NonEmpty(xs) == xs
  {
    if xs != [] { NonEmptyKeeps(xs[1..]); }
  }

  lemma SegmentsOfJoin(xs: seq<string>)
    requires Pieces(xs, '&')
    ensures Segments(Join(xs, '&')) == xs
  {
    if xs == [] {
      assert Split("", '&') == [""] && NonEmpty([""]) == NonEmpty([""][1..]) == [];
    } else {
      SplitJoin(xs, '&');
      NonEmptyKeeps(xs);
    }
  }

  lemma SortedPieces(raw: string)
    ensures Pieces(StableSort(SegmentLe, Segments(raw)), '&')
  {
    NonEmptyPieces(Split(raw, '&'), '&');
    var s, t := Segments(raw), StableSort(SegmentLe, Segments(raw));
    forall i | 0 <= i < |t| ensures t[i] != "" && '&' !in t[i] {
      assert t[i] in multiset(s);
      var k :| 0 <= k < |s| && s[k] == t[i];
    }
  }

  /** The canonical form spells out the query's segments, in sorted order. */
  lemma SegmentsOfCanonical(raw: string)
    ensures Segments(CanonicalQuery(raw)) == StableSort(SegmentLe, Segments(raw))
  {
    SortedPieces(raw);
    SegmentsOfJoin(StableSort(SegmentLe, Segments(raw)));
  }

  /** Two queries have one canonical form exactly when they have the same segments,
      counted with repetition, in whatever order. */
  lemma SameQueryIff(a: string, b: string)
    ensures CanonicalQuery(a) == CanonicalQuery(b) <==> multiset(Segments(a)) == multiset(Segments(b))
  {
    SegmentsOfCanonical(a);
    SegmentsOfCanonical(b);
    if multiset(Segments(a)) == multiset(Segments(b)) {
      SegmentLeOrders();
      SortOrders(SegmentLe, Segments(a));
      SortOrders(SegmentLe, Segments(b));
      OrderedUnique(SegmentLe, StableSort(SegmentLe, Segments(a)), StableSort(SegmentLe, Segments(b)));
    }
  }

  lemma CanonicalIdempotent(raw: string)
    ensures CanonicalQuery(CanonicalQuery(raw)) == CanonicalQuery(raw)
  {
    SegmentsOfCanonical(raw);
    SameQueryIff(CanonicalQuery(raw), raw);
  }

  /** `key` is what stands before the first equals sign, or the whole segment without one. */
  predicate IsKey(segment: string, key: string) {
    '=' !in key && (segment == key || (|key| < |segment| && segment[..|key|] == key && segment[|key|] == '='))
  }

  lemma KeyIff(segment: string, key: string)
    ensures KeyOf(segment) == key <==> IsKey(segment, key)
  {
    KeyBefore(segment);
    if IsKey(segment, key) { OneKey(segment, key, KeyOf(segment)); }
  }

  lemma OneKey(segment: string, k: string, l: string)
    requires IsKey(segment, k) && IsKey(segment, l)
    ensures k == l
  {
    NoLonger(segment, k, l);
    NoLonger(segment, l, k);
  }

  lemma NoLonger(segment: string, k: string, l: string)
    requires IsKey(segment, k) && IsKey(segment, l)
    ensures |l| <= |k|
  {
  }

  lemma {:induction false} KeyBefore(segment: string)
    ensures IsKey(segment, KeyOf(segment))
  {
    if segment != "" && segment[0] != '=' {
      KeyBefore(segment[1..]);
      assert KeyOf(segment) == [segment[0]] + KeyOf(segment[1..]);
      assert segment == [segment[0]] + segment[1..];
    }
  }

  /** The canonical form lists the segments by key, and equal keys by the whole segment. */
  lemma CanonicalSorted(raw: string, i: nat, j: nat, k: string, l: string)
    requires i < j < |Segments(CanonicalQuery(raw))|
    requires IsKey(Segments(CanonicalQuery(raw))[i], k) && IsKey(Segments(CanonicalQuery(raw))[j], l)
    ensures var s := Segments(CanonicalQuery(raw));
      Earlier(k, l) && (k == l ==> Earlier(s[i], s[j]))
  {
    SegmentsOfCanonical(raw);
    SegmentLeOrders();
    SortOrders(SegmentLe, Segments(raw));
    var s := Segments(CanonicalQuery(raw));
    assert SegmentLe(s[i], s[j]);
    KeyIff(s[i], k);
    KeyIff(s[j], l);
    LexIff(k, l);
    LexIff(s[i], s[j]);
    LexTotal(k, l);
  }

  lemma {:induction false} NonEmptyCounts(xs: seq<string>, x: string)
    ensures multiset(NonEmpty(xs))[x] == if x == "" then 0 else multiset(xs)[x]
  {
    if xs != [] {
      NonEmptyCounts(xs[1..], x);
      assert xs == [xs[0]] + xs[1..];
    }
  }

  /** Of pieces joined by ampersands the canonical form keeps each that is not empty, as
      often as it stands. */
  lemma CanonicalKeeps(pieces: seq<string>, x: string)
    requires pieces != [] && forall i :: 0 <= i < |pieces| ==> '&' !in pieces[i]
    ensures multiset(Segments(CanonicalQuery(Join(pieces, '&'))))[x] == if x == "" then 0 else multiset(pieces)[x]
  {
    SegmentsOfCanonical(Join(pieces, '&'));
    SplitJoin(pieces, '&');
    NonEmptyCounts(pieces, x);
  }

  // ---- the nine lines ----

  function UpperChar(c: char): char {
    if 'a' <= c <= 'z' then (c as int - 32) as char else c
  }

  function Upper(s: string): (r: string)
    ensures |r| == |s|
    ensures '\n' in r ==> '\n' in s
  {
    if s == "" then "" else [UpperChar(s[0])] + Upper(s[1..])
  }

  datatype Parts = Parts(
    verb: string, path: string, query: string, timestampMs: string, nonce: string,
    accountId: string, vmId: string, sessionId: string, bodyHash: string)
  {
    function Lines(): seq<string> {
      [Upper(verb), path, CanonicalQuery(query), timestampMs, nonce, accountId, vmId, sessionId, bodyHash]
    }

    predicate OneLineEach() {
      '\n' !in verb && '\n' !in path && '\n' !in query && '\n' !in timestampMs && '\n' !in nonce &&
      '\n' !in accountId && '\n' !in vmId && '\n' !in sessionId && '\n' !in bodyHash
    }
  }

  function CanonicalString(p: Parts): string { Join(p.Lines(), '\n') }

  lemma {:induction false} SplitLacks(s: string, c: char, d: char)
    requires d !in s
    ensures forall i :: 0 <= i < |Split(s, c)| ==> d !in Split(s, c)[i]
  {
    if s != "" { SplitLacks(s[1..], c, d); }
  }

  lemma {:induction false} NonEmptyLacks(xs: seq<string>, d: char)
    requires forall i :: 0 <= i < |xs| ==> d !in xs[i]
    ensures forall i :: 0 <= i < |NonEmpty(xs)| ==> d !in NonEmpty(xs)[i]
  {
    if xs != [] { NonEmptyLacks(xs[1..], d); }
  }

  lemma CanonicalOneLine(raw: string)
    requires '\n' !in raw
    ensures '\n' !in CanonicalQuery(raw)
  {
    SplitLacks(raw, '&', '\n');
    NonEmptyLacks(Split(raw, '&'), '\n');
    var s, t := Segments(raw), StableSort(SegmentLe, Segments(raw));
    forall i | 0 <= i < |t| ensures '\n' !in t[i] {
      assert t[i] in multiset(s);
      var k :| 0 <= k < |s| && s[k] == t[i];
    }
    JoinLacks(t, '&', '\n');
  }

  /** For fields without newlines the signed text determines every field: the method up
      to case, the query up to the order of its segments, the others exactly. */
  lemma CanonicalStringDetermines(p: Parts, q: Parts)
    requires p.OneLineEach() && q.OneLineEach()
    ensures CanonicalString(p) == CanonicalString(q) <==>
      && Upper(p.verb) == Upper(q.verb)
      && multiset(Segments(p.query)) == multiset(Segments(q.query))
      && p.path == q.path && p.timestampMs == q.timestampMs && p.nonce == q.nonce
      && p.accountId == q.accountId && p.vmId == q.vmId && p.sessionId == q.sessionId
      && p.bodyHash == q.bodyHash
  {
    SameQueryIff(p.query, q.query);
    LinesRecovered(p);
    LinesRecovered(q);
    if CanonicalString(p) == CanonicalString(q) {
      SameLines(p, q);
    }
  }

  /** `u` is `v` with its small letters made capital. */
  predicate Capitals(v: string, u: string) {
    |u| == |v| && forall i :: 0 <= i < |u| ==>
      if 'a' <= v[i] <= 'z' then 'A' <= u[i] <= 'Z' && v[i] as int - u[i] as int == 32 else u[i] == v[i]
  }

  lemma {:induction false} UpperIsCapitals(v: string)
    ensures Capitals(v, Upper(v))
  {
    if v != "" { UpperIsCapitals(v[1..]); }
  }

  /** For fields without newlines the signed text is nine lines: the method in capitals,
      path, canonical query, timestamp, nonce, account, machine, session, body hash. */
  lemma SignedLines(p: Parts)
    requires p.OneLineEach()
    ensures var l := Split(CanonicalString(p), '\n');
      && |l| == 9 && Capitals(p.verb, l[0]) && l[1] == p.path && l[2] == CanonicalQuery(p.query)
      && l[3] == p.timestampMs && l[4] == p.nonce && l[5] == p.accountId
      && l[6] == p.vmId && l[7] == p.sessionId && l[8] == p.bodyHash
  {
    LinesRecovered(p);
    UpperIsCapitals(p.verb);
  }

  lemma LinesRecovered(p: Parts)
    requires p.OneLineEach()
    ensures Split(CanonicalString(p), '\n') == p.Lines()
  {
    CanonicalOneLine(p.query);
    SplitJoin(p.Lines(), '\n');
  }

  lemma SameLines(p: Parts, q: Parts)
    requires p.Lines() == q.Lines()
    ensures Upper(p.verb) == Upper(q.verb) && p.path == q.path
    ensures CanonicalQuery(p.query) == CanonicalQuery(q.query) && p.timestampMs == q.timestampMs
    ensures p.nonce == q.nonce && p.accountId == q.accountId && p.vmId == q.vmId
    ensures p.sessionId == q.sessionId && p.bodyHash == q.bodyHash
  {
    var ps, qs := p.Lines(), q.Lines();
    assert ps[0] == qs[0] && ps[1] == qs[1] && ps[2] == qs[2] && ps[3] == qs[3] && ps[4] == qs[4];
    assert ps[5] == qs[5] && ps[6] == qs[6] && ps[7] == qs[7] && ps[8] == qs[8];
  }
}
