/** The library sorts the components call: a stable sort by a total preorder. */
module Sorting {

  ghost predicate TotalPreorder<T(!new)>(le: (T, T) -> bool) {
    && (forall a, b :: le(a, b) || le(b, a))
    && (forall a, b, c :: le(a, b) && le(b, c) ==> le(a, c))
  }

  ghost predicate Antisymmetric<T(!new)>(le: (T, T) -> bool) {
    forall a, b :: le(a, b) && le(b, a) ==> a == b
  }

  ghost predicate Ordered<T>(le: (T, T) -> bool, s: seq<T>) {
    forall i, j :: 0 <= i < j < |s| ==> le(s[i], s[j])
  }

  function Insert<T>(le: (T, T) -> bool, x: T, s: seq<T>): (r: seq<T>)
    ensures |r| == |s| + 1
    ensures multiset(r) == multiset{x} + multiset(s)
  {
    if s == [] || le(x, s[0]) then [x] + s
    else
      assert [s[0]] + s[1..] == s;
      [s[0]] + Insert(le, x, s[1..])
  }

  /** Elements that compare equal keep their order. */
  function StableSort<T>(le: (T, T) -> bool, s: seq<T>): (r: seq<T>)
    ensures |r| == |s|
    ensures multiset(r) == multiset(s)
  {
    if s == [] then []
    else
      assert [s[0]] + s[1..] == s;
      Insert(le, s[0], StableSort(le, s[1..]))
  }

  lemma {:induction false} InsertOrdered<T(!new)>(le: (T, T) -> bool, x: T, s: seq<T>)
    requires TotalPreorder(le) && Ordered(le, s)
    ensures Ordered(le, Insert(le, x, s))
  {
    if s != [] && !le(x, s[0]) {
      var t := Insert(le, x, s[1..]);
      InsertOrdered(le, x, s[1..]);
      forall j | 0 <= j < |t| ensures le(s[0], t[j]) {
        assert t[j] in multiset(t);
        assert t[j] == x || t[j] in s[1..];
      }
    }
  }

  lemma {:induction false} SortOrders<T(!new)>(le: (T, T) -> bool, s: seq<T>)
    requires TotalPreorder(le)
    ensures Ordered(le, StableSort(le, s))
  {
    if s != [] {
      SortOrders(le, s[1..]);
      InsertOrdered(le, s[0], StableSort(le, s[1..]));
    }
  }

  ghost predicate Peer<T>(le: (T, T) -> bool, x: T, y: T) {
    le(x, y) && le(y, x)
  }

  /** The elements of `s` that compare equal to `x`, in the order they stand. */
  ghost function Peers<T>(le: (T, T) -> bool, x: T, s: seq<T>): seq<T> {
    if s == [] then []
    else (if Peer(le, x, s[0]) then [s[0]] else []) + Peers(le, x, s[1..])
  }

  lemma {:induction false} InsertKeepsPeers<T(!new)>(le: (T, T) -> bool, x: T, y: T, s: seq<T>)
    requires TotalPreorder(le) && Ordered(le, s)
    ensures Peers(le, x, Insert(le, y, s)) == Peers(le, x, [y] + s)
  {
    assert ([y] + s)[1..] == s;
    if s != [] && !le(y, s[0]) {
      InsertKeepsPeers(le, x, y, s[1..]);
      assert ([y] + s[1..])[1..] == s[1..];
      var r := Insert(le, y, s);
      assert r[1..] == Insert(le, y, s[1..]);
      // y and the head are strictly apart, so at most one of them is a peer of x
      var head := s[0];
      assert !(Peer(le, x, y) && Peer(le, x, head));
    }
  }

  /** Stability: within every class of equals the sort changes nothing. */
  lemma {:induction false} SortKeepsPeers<T(!new)>(le: (T, T) -> bool, x: T, s: seq<T>)
    requires TotalPreorder(le)
    ensures Peers(le, x, StableSort(le, s)) == Peers(le, x, s)
  {
    if s != [] {
      var t := StableSort(le, s[1..]);
      SortOrders(le, s[1..]);
      SortKeepsPeers(le, x, s[1..]);
      InsertKeepsPeers(le, x, s[0], t);
      assert ([s[0]] + t)[1..] == t;
    }
  }

  lemma {:induction false} PeersNonEmpty<T(!new)>(le: (T, T) -> bool, x: T, s: seq<T>)
    requires TotalPreorder(le)
    ensures forall i :: 0 <= i < |Peers(le, x, s)| ==>
      Peers(le, x, s)[i] in s && Peer(le, x, Peers(le, x, s)[i])
  {
    if s != [] {
      PeersNonEmpty(le, x, s[1..]);
    }
  }

  lemma PeersOfHead<T(!new)>(le: (T, T) -> bool, s: seq<T>, t: seq<T>)
    requires TotalPreorder(le) && s != [] && Peers(le, s[0], s) == Peers(le, s[0], t)
    ensures Peers(le, s[0], t) != [] && Peers(le, s[0], t)[0] == s[0]
    ensures s[0] in t
  {
    assert Peers(le, s[0], s)[0] == s[0];
    PeersNonEmpty(le, s[0], t);
  }

  lemma PeersOfTail<T>(le: (T, T) -> bool, x: T, s: seq<T>, t: seq<T>)
    requires s != [] && t != [] && s[0] == t[0] && Peers(le, x, s) == Peers(le, x, t)
    ensures Peers(le, x, s[1..]) == Peers(le, x, t[1..])
  {
    var head := if Peer(le, x, s[0]) then [s[0]] else [];
    assert Peers(le, x, s[1..]) == Peers(le, x, s)[|head|..];
    assert Peers(le, x, t[1..]) == Peers(le, x, t)[|head|..];
  }

  lemma SameHead<T(!new)>(le: (T, T) -> bool, s: seq<T>, t: seq<T>)
    requires TotalPreorder(le) && Ordered(le, s) && Ordered(le, t) && s != [] && t != []
    requires Peers(le, s[0], s) == Peers(le, s[0], t) && Peers(le, t[0], s) == Peers(le, t[0], t)
    ensures s[0] == t[0]
  {
    PeersOfHead(le, s, t);
    PeersOfHead(le, t, s);
    HeadLeast(le, s, t[0]);
    HeadLeast(le, t, s[0]);
    assert Peer(le, s[0], t[0]);
    assert Peers(le, s[0], t)[0] == t[0];
  }

  lemma HeadLeast<T(!new)>(le: (T, T) -> bool, s: seq<T>, x: T)
    requires TotalPreorder(le) && Ordered(le, s) && x in s
    ensures le(s[0], x)
  {
    var i :| 0 <= i < |s| && s[i] == x;
    assert le(x, x);
  }

  /** Order and stability leave one possible result. */
  lemma {:induction false} StableSortUnique<T(!new)>(le: (T, T) -> bool, s: seq<T>, t: seq<T>)
    requires TotalPreorder(le) && Ordered(le, s) && Ordered(le, t)
    requires forall x :: Peers(le, x, s) == Peers(le, x, t)
    ensures s == t
  {
    if s != [] { PeersOfHead(le, s, t); }
    if t != [] { PeersOfHead(le, t, s); }
    if s != [] && t != [] {
      SameHead(le, s, t);
      forall x ensures Peers(le, x, s[1..]) == Peers(le, x, t[1..]) {
        PeersOfTail(le, x, s, t);
      }
      StableSortUnique(le, s[1..], t[1..]);
      assert s == [s[0]] + s[1..] && t == [t[0]] + t[1..];
    }
  }

  lemma HeadAndTail<T>(s: seq<T>)
    requires s != []
    ensures s[0] in s && multiset(s[1..]) == multiset(s) - multiset{s[0]}
  {
    assert s == [s[0]] + s[1..];
  }

  lemma SameLeast<T(!new)>(le: (T, T) -> bool, s: seq<T>, t: seq<T>)
    requires TotalPreorder(le) && Antisymmetric(le) && Ordered(le, s) && Ordered(le, t)
    requires multiset(s) == multiset(t) && s != [] && t != []
    ensures s[0] == t[0]
  {
    assert s[0] in multiset(t) && t[0] in multiset(s);
    HeadLeast(le, s, t[0]);
    HeadLeast(le, t, s[0]);
  }

  /** When no two different elements compare equal, the contents alone decide the result. */
  lemma {:induction false} OrderedUnique<T(!new)>(le: (T, T) -> bool, s: seq<T>, t: seq<T>)
    requires TotalPreorder(le) && Antisymmetric(le) && Ordered(le, s) && Ordered(le, t)
    requires multiset(s) == multiset(t)
    ensures s == t
  {
    assert |s| == |multiset(s)| == |multiset(t)| == |t|;
    if s != [] {
      SameLeast(le, s, t);
      TailOrdered(le, s);
      TailOrdered(le, t);
      TailContents(s, t);
      OrderedUnique(le, s[1..], t[1..]);
      HeadFirst(s, t);
    }
  }

  lemma TailOrdered<T>(le: (T, T) -> bool, s: seq<T>)
    requires Ordered(le, s) && s != []
    ensures Ordered(le, s[1..])
  {
  }

  lemma TailContents<T>(s: seq<T>, t: seq<T>)
    requires s != [] && t != [] && s[0] == t[0] && multiset(s) == multiset(t)
    ensures multiset(s[1..]) == multiset(t[1..])
  {
    HeadAndTail(s);
    HeadAndTail(t);
  }

  lemma HeadFirst<T>(s: seq<T>, t: seq<T>)
    requires s != [] && t != [] && s[0] == t[0] && s[1..] == t[1..]
    ensures s == t
  {
    assert s == [s[0]] + s[1..] && t == [t[0]] + t[1..];
  }

  /** `f` sends every index of `s` to its own index of `t`. */
  ghost predicate Injects(f: seq<nat>, n: nat, m: nat) {
    && |f| == n
    && (forall i :: 0 <= i < n ==> f[i] < m)
    && (forall i, j :: 0 <= i < j < n ==> f[i] != f[j])
  }

  lemma DropAt<T>(t: seq<T>, k: nat)
    requires k < |t|
    ensures multiset(t[..k] + t[k + 1..]) == multiset(t) - multiset{t[k]}
  {
    assert t == t[..k] + [t[k]] + t[k + 1..];
    assert multiset(t) == multiset(t[..k] + t[k + 1..]) + multiset{t[k]};
  }

  lemma RemoveOne<T>(s: seq<T>, t: seq<T>, k: nat)
    requires s != [] && multiset(s) == multiset(t) && k < |t| && t[k] == s[|s| - 1]
    ensures multiset(s[..|s| - 1]) == multiset(t[..k] + t[k + 1..])
  {
    DropAt(t, k);
    DropAt(s, |s| - 1);
    assert s[..|s| - 1] + s[|s|..] == s[..|s| - 1];
  }

  /** A matching into `t` without its k-th element, and the last element to that one. */
  lemma MatchOneMore<T>(s: seq<T>, t: seq<T>, k: nat, g: seq<nat>) returns (f: seq<nat>)
    requires s != [] && k < |t| && t[k] == s[|s| - 1]
    requires Injects(g, |s| - 1, |t| - 1)
    requires forall i :: 0 <= i < |s| - 1 ==> s[i] == (t[..k] + t[k + 1..])[g[i]]
    ensures Injects(f, |s|, |t|) && forall i :: 0 <= i < |s| ==> s[i] == t[f[i]]
  {
    f := seq(|g|, i requires 0 <= i < |g| => if g[i] < k then g[i] else g[i] + 1) + [k];
  }

  /** Equal contents can be matched element by element. */
  lemma {:induction false} Match<T>(s: seq<T>, t: seq<T>) returns (f: seq<nat>)
    requires multiset(s) == multiset(t)
    ensures Injects(f, |s|, |t|) && forall i :: 0 <= i < |s| ==> s[i] == t[f[i]]
    decreases |s|
  {
    assert |s| == |multiset(s)| == |multiset(t)| == |t|;
    if s == [] {
      f := [];
    } else {
      assert s[|s| - 1] in multiset(t);
      var k :| 0 <= k < |t| && t[k] == s[|s| - 1];
      RemoveOne(s, t, k);
      var g := Match(s[..|s| - 1], t[..k] + t[k + 1..]);
      f := MatchOneMore(s, t, k, g);
    }
  }

  lemma UnmatchLast(f: seq<nat>, n: nat) returns (g: seq<nat>)
    requires Injects(f, n, n) && n > 0
    ensures Injects(g, n - 1, n - 1)
    ensures forall i :: 0 <= i < n - 1 ==> f[i] == if g[i] < f[n - 1] then g[i] else g[i] + 1
  {
    g := seq(n - 1, i requires 0 <= i < n - 1 =>
      assert f[i] != f[n - 1];
      if f[i] < f[n - 1] then f[i] else f[i] - 1);
    forall i, j | 0 <= i < j < n - 1 ensures g[i] != g[j] {
      assert f[i] != f[j] && f[i] != f[n - 1] && f[j] != f[n - 1];
    }
    forall i | 0 <= i < n - 1 ensures g[i] < n - 1 {
      assert f[i] < n && f[n - 1] < n && f[i] != f[n - 1];
    }
  }

  /** Sequences of one length matched element by element have equal contents. */
  lemma {:induction false} MatchedContents<T>(s: seq<T>, t: seq<T>, f: seq<nat>)
    requires |s| == |t| && Injects(f, |s|, |t|) && forall i :: 0 <= i < |s| ==> s[i] == t[f[i]]
    ensures multiset(s) == multiset(t)
    decreases |s|
  {
    if s != [] {
      var n := |s|;
      var k := f[n - 1];
      var g := UnmatchLast(f, n);
      var init, rest := s[..n - 1], t[..k] + t[k + 1..];
      forall i | 0 <= i < n - 1 ensures init[i] == rest[g[i]] { assert s[i] == t[f[i]]; }
      MatchedContents(init, rest, g);
      assert s == init + [s[n - 1]];
      assert t == t[..k] + [t[k]] + t[k + 1..];
      assert multiset(t) == multiset(rest) + multiset{t[k]};
    }
  }
}
