/** Replay protection of the guest agent: a nonce cache that forgets what left its
    window, and the verifier that consults it after the timestamp check. */
module NonceCache {
  import opened Common

  /** The earliest second still inside the window; subtraction stops at zero. */
  function Cutoff(window: nat, now: nat): nat { if now < window then 0 else now - window }

  function Retained(seen: map<string, nat>, cutoff: nat): map<string, nat> {
    map n | n in seen && seen[n] >= cutoff :: seen[n]
  }

  /** The cache and the answer after one check. */
  function Check(seen: map<string, nat>, window: nat, nonce: string, now: nat): (map<string, nat>, bool) {
    var kept := Retained(seen, Cutoff(window, now));
    if nonce in kept then (kept, false) else (kept[nonce := now], true)
  }

  class Cache {
    const window: nat
    var seen: map<string, nat>

    constructor (window: nat)
      ensures this.window == window && seen == map[]
    {
      this.window, seen := window, map[];
    }

    method CheckAndRecord(nonce: string, now: nat) returns (ok: bool)
      modifies this`seen
      ensures (seen, ok) == Check(old(seen), window, nonce, now)
      ensures ok <==> !(nonce in old(seen) && now <= old(seen)[nonce] + window)
      ensures ok ==> nonce in seen && seen[nonce] == now
      ensures forall n :: n != nonce || !ok ==>
        (n in seen <==> n in old(seen) && now <= old(seen)[n] + window) &&
        (n in seen ==> seen[n] == old(seen)[n])
    {
      var cutoff := Cutoff(window, now);
      seen := Retained(seen, cutoff);
      if nonce in seen && seen[nonce] >= cutoff { return false; }
      seen := seen[nonce := now];
      ok := true;
    }
  }

  // ---- the cache against the full history ----

  datatype Use = Use(nonce: string, at: nat)

  predicate Recent(history: seq<Use>, window: nat, nonce: string, now: nat) {
    exists i :: 0 <= i < |history| && history[i].nonce == nonce && now <= history[i].at + window
  }

  /** The cache's answers to a run of uses, with what it holds afterwards. */
  function CacheRun(window: nat, uses: seq<Use>): (map<string, nat>, seq<bool>) {
    if uses == [] then (map[], [])
    else
      var last := uses[|uses| - 1];
      var before := CacheRun(window, uses[..|uses| - 1]);
      var after := Check(before.0, window, last.nonce, last.at);
      (after.0, before.1 + [after.1])
  }

  /** The same run answered from every acceptance ever made. */
  function HistoryRun(window: nat, uses: seq<Use>): (seq<Use>, seq<bool>) {
    if uses == [] then ([], [])
    else
      var last := uses[|uses| - 1];
      var before := HistoryRun(window, uses[..|uses| - 1]);
      var ok := !Recent(before.0, window, last.nonce, last.at);
      (if ok then before.0 + [last] else before.0, before.1 + [ok])
  }

  /** No time reaches the cache more than `back` seconds below an earlier one. */
  predicate StepsBack(back: nat, uses: seq<Use>) {
    forall i, j :: 0 <= i < j < |uses| ==> uses[i].at <= uses[j].at + back
  }

  /** The cache holds accepted uses only, and every one still inside the window. */
  ghost predicate Agrees(seen: map<string, nat>, history: seq<Use>, window: nat, now: nat) {
    && (forall n :: n in seen ==> exists i :: 0 <= i < |history| && history[i] == Use(n, seen[n]))
    && (forall i :: 0 <= i < |history| ==> history[i].at <= now)
    && (forall i :: 0 <= i < |history| && now <= history[i].at + window ==>
          history[i].nonce in seen && history[i].at <= seen[history[i].nonce])
  }

  lemma AgreesLater(seen: map<string, nat>, history: seq<Use>, window: nat, now: nat, later: nat)
    requires Agrees(seen, history, window, now) && now <= later
    ensures Agrees(Retained(seen, Cutoff(window, later)), history, window, later)
  {
    var kept := Retained(seen, Cutoff(window, later));
    forall i | 0 <= i < |history| && later <= history[i].at + window
      ensures history[i].nonce in kept && history[i].at <= kept[history[i].nonce]
    {
      assert now <= history[i].at + window;
    }
  }

  lemma RecordAgrees(kept: map<string, nat>, history: seq<Use>, window: nat, use: Use)
    requires Agrees(kept, history, window, use.at)
    ensures Agrees(kept[use.nonce := use.at], history + [use], window, use.at)
  {
    var after, more := kept[use.nonce := use.at], history + [use];
    forall n | n in after ensures exists i :: 0 <= i < |more| && more[i] == Use(n, after[n]) {
      if n == use.nonce {
        assert more[|history|] == Use(n, after[n]);
      } else {
        var i :| 0 <= i < |history| && history[i] == Use(n, kept[n]);
        assert more[i] == Use(n, after[n]);
      }
    }
  }

  lemma KeptIffRecent(seen: map<string, nat>, history: seq<Use>, window: nat, now: nat, nonce: string)
    requires Agrees(Retained(seen, Cutoff(window, now)), history, window, now)
    ensures nonce in Retained(seen, Cutoff(window, now)) <==> Recent(history, window, nonce, now)
  {
    var kept := Retained(seen, Cutoff(window, now));
    if nonce in kept {
      var i :| 0 <= i < |history| && history[i] == Use(nonce, kept[nonce]);
      assert now <= history[i].at + window;
    }
  }

  lemma CheckAgrees(seen: map<string, nat>, history: seq<Use>, window: nat, now: nat, use: Use)
    requires Agrees(seen, history, window, now) && now <= use.at
    ensures var r := Check(seen, window, use.nonce, use.at);
      && r.1 == !Recent(history, window, use.nonce, use.at)
      && Agrees(r.0, if r.1 then history + [use] else history, window, use.at)
  {
    AgreesLater(seen, history, window, now, use.at);
    KeptIffRecent(seen, history, window, use.at, use.nonce);
    RecordAgrees(Retained(seen, Cutoff(window, use.at)), history, window, use);
  }

  /** When the times reach the cache in order, the pruned cache answers every use exactly
      as the full history of acceptances would: refused iff accepted at most `window`
      seconds ago. */
  lemma {:induction false} CacheMatchesHistory(window: nat, uses: seq<Use>)
    requires StepsBack(0, uses)
    ensures CacheRun(window, uses).1 == HistoryRun(window, uses).1
    ensures uses != [] ==>
      Agrees(CacheRun(window, uses).0, HistoryRun(window, uses).0, window, uses[|uses| - 1].at)
  {
    if uses != [] {
      var init, last := uses[..|uses| - 1], uses[|uses| - 1];
      CacheMatchesHistory(window, init);
      var now := if init == [] then 0 else init[|init| - 1].at;
      CheckAgrees(CacheRun(window, init).0, HistoryRun(window, init).0, window, now, last);
    }
  }

  /** Times that step back by a second make a cache of any window forget too early. */
  lemma BackwardClockForgets(window: nat, back: nat) returns (uses: seq<Use>)
    requires back > 0
    ensures StepsBack(back, uses)
    ensures CacheRun(window, uses).1 == [true, true, true]
    ensures HistoryRun(window, uses).1 == [true, true, false]
  {
    var a, b, c := Use("n", 0), Use("m", window + 1), Use("n", window);
    uses := [a, b, c];
    assert uses[..2] == [a, b] && [true, true] + [true] == [true, true, true];
    TwoUses(window, a, b);
    assert [a, b][0].nonce == "n" && window <= [a, b][0].at + window;
    assert [true, true] + [false] == [true, true, false];
  }

  /** Two fresh nonces, the second so late that the first is pruned. */
  lemma TwoUses(window: nat, a: Use, b: Use)
    requires a.nonce != b.nonce && a.at + window < b.at
    ensures CacheRun(window, [a, b]) == (map[b.nonce := b.at], [true, true])
    ensures HistoryRun(window, [a, b]) == ([a, b], [true, true])
  {
    FirstUse(window, a);
    assert [a, b][..1] == [a] && [true] + [true] == [true, true] && [a] + [b] == [a, b];
    assert Retained(map[a.nonce := a.at], Cutoff(window, b.at)) == map[];
    assert !Recent([a], window, b.nonce, b.at);
  }

  lemma FirstUse(window: nat, use: Use)
    ensures CacheRun(window, [use]) == (map[use.nonce := use.at], [true])
    ensures HistoryRun(window, [use]) == ([use], [true])
  {
    assert [use][..0] == [];
    assert Retained(map[], Cutoff(window, use.at)) == map[];
    assert CacheRun(window, []) == (map[], []) && HistoryRun(window, []) == ([], []);
    assert [] + [true] == [true] && [] + [use] == [use];
  }

  /** Whatever the window, the cache answers as the history on every run whose times
      step back at most `back` seconds exactly when that is not at all. */
  lemma CacheFaithfulIff(window: nat, back: nat)
    ensures back == 0 <==>
      forall uses :: StepsBack(back, uses) ==> CacheRun(window, uses).1 == HistoryRun(window, uses).1
  {
    if back == 0 {
      forall uses | StepsBack(0, uses) ensures CacheRun(window, uses).1 == HistoryRun(window, uses).1 {
        CacheMatchesHistory(window, uses);
      }
    } else {
      var uses := BackwardClockForgets(window, back);
      assert CacheRun(window, uses).1[2] != HistoryRun(window, uses).1[2];
    }
  }

  // ---- the verifier ----

  /** A request as it reaches the checks that depend on time: `genuine` stands for the
      body hash, the account binding and the signature. */
  datatype Request = Request(nonce: string, timestampMs: nat, genuine: bool, nowMs: nat)

  predicate WithinSkew(skew: nat, r: Request) {
    r.nowMs <= r.timestampMs + skew * 1000 && r.timestampMs <= r.nowMs + skew * 1000
  }

  predicate Passes(skew: nat, r: Request) { WithinSkew(skew, r) && r.genuine }

  class Verifier {
    const skew: nat
    const cache: Cache

    constructor (skew: nat, window: nat)
      ensures this.skew == skew && fresh(cache) && cache.window == window && cache.seen == map[]
    {
      this.skew := skew;
      this.cache := new Cache(window);
    }

    /** The replay check comes last, so a refused request never touches the cache. */
    method Verify(r: Request) returns (ok: bool)
      modifies cache
      ensures Passes(skew, r) ==>
        (cache.seen, ok) == Check(old(cache.seen), cache.window, r.nonce, r.nowMs / 1000)
      ensures !Passes(skew, r) ==> !ok && cache.seen == old(cache.seen)
      ensures ok <==>
        && -(skew * 1000) <= r.timestampMs - r.nowMs <= skew * 1000 && r.genuine
        && !(r.nonce in old(cache.seen) && r.nowMs / 1000 <= old(cache.seen)[r.nonce] + cache.window)
    {
      var diff := if r.nowMs < r.timestampMs then r.timestampMs - r.nowMs else r.nowMs - r.timestampMs;
      if diff > skew * 1000 { return false; }
      if !r.genuine { return false; }
      ok := cache.CheckAndRecord(r.nonce, r.nowMs / 1000);
    }
  }

  /** The cache and the answers of a verifier over a run of requests. */
  function VerifyRun(skew: nat, window: nat, reqs: seq<Request>): (map<string, nat>, seq<bool>)
  {
    if reqs == [] then (map[], [])
    else
      var last := reqs[|reqs| - 1];
      var before := VerifyRun(skew, window, reqs[..|reqs| - 1]);
      if !Passes(skew, last) then (before.0, before.1 + [false])
      else
        var after := Check(before.0, window, last.nonce, last.nowMs / 1000);
        (after.0, before.1 + [after.1])
  }

  predicate ForwardMs(reqs: seq<Request>) {
    forall i, j :: 0 <= i < j < |reqs| ==> reqs[i].nowMs <= reqs[j].nowMs
  }

  /** From one request that passes to a later one the readings lose at most `back` seconds. */
  predicate LosesAtMost(skew: nat, back: nat, reqs: seq<Request>) {
    forall i, j :: 0 <= i < j < |reqs| && Passes(skew, reqs[i]) && Passes(skew, reqs[j]) ==>
      reqs[i].nowMs <= reqs[j].nowMs + back * 1000
  }

  /** No request that passes is dated more than `ahead` seconds after the clock it meets. */
  predicate DatedWithin(skew: nat, ahead: nat, reqs: seq<Request>) {
    forall i :: 0 <= i < |reqs| && Passes(skew, reqs[i]) ==>
      reqs[i].timestampMs <= reqs[i].nowMs + ahead * 1000
  }

  /** No nonce is accepted twice with the same timestamp. */
  ghost predicate AcceptedOnce(reqs: seq<Request>, answers: seq<bool>) {
    |answers| == |reqs| &&
    forall i, j :: 0 <= i < j < |reqs| && answers[i] && answers[j] ==>
      reqs[i].nonce != reqs[j].nonce || reqs[i].timestampMs != reqs[j].timestampMs
  }

  function Second(r: Request): nat { r.nowMs / 1000 }

  /** Since the i-th request no check moved the window past it. */
  predicate StillInside(skew: nat, window: nat, reqs: seq<Request>, i: nat)
    requires i < |reqs|
  {
    forall k :: i <= k < |reqs| && Passes(skew, reqs[k]) ==> Second(reqs[k]) <= Second(reqs[i]) + window
  }

  /** Every acceptance still inside the window is in the cache, with its own time. */
  ghost predicate Remembers(skew: nat, window: nat, reqs: seq<Request>, seen: map<string, nat>, answers: seq<bool>) {
    |answers| == |reqs| &&
    forall i :: 0 <= i < |reqs| && answers[i] ==>
      && Passes(skew, reqs[i])
      && (StillInside(skew, window, reqs, i) ==>
            reqs[i].nonce in seen && seen[reqs[i].nonce] == Second(reqs[i]))
  }

  /** However the clock moves and whatever is refused in between. */
  lemma {:induction false} VerifierRemembers(skew: nat, window: nat, reqs: seq<Request>)
    ensures var r := VerifyRun(skew, window, reqs); Remembers(skew, window, reqs, r.0, r.1)
  {
    if reqs != [] {
      var init, last := reqs[..|reqs| - 1], reqs[|reqs| - 1];
      VerifierRemembers(skew, window, init);
      var before, r := VerifyRun(skew, window, init), VerifyRun(skew, window, reqs);
      forall i | 0 <= i < |reqs| && r.1[i]
        ensures Passes(skew, reqs[i])
        ensures StillInside(skew, window, reqs, i) ==>
          reqs[i].nonce in r.0 && r.0[reqs[i].nonce] == Second(reqs[i])
      {
        if i < |init| {
          assert init[i] == reqs[i] && before.1[i];
          if StillInside(skew, window, reqs, i) { InsideBefore(skew, window, reqs, i); }
        }
      }
    }
  }

  lemma InsideBefore(skew: nat, window: nat, reqs: seq<Request>, i: nat)
    requires i < |reqs| - 1 && StillInside(skew, window, reqs, i)
    ensures StillInside(skew, window, reqs[..|reqs| - 1], i)
    ensures var last := reqs[|reqs| - 1]; Passes(skew, last) ==> Second(last) <= Second(reqs[i]) + window
  {
  }

  /** How far the window must reach. */
  function Reach(skew: nat, ahead: nat, back: nat): nat { skew + Min(ahead, skew) + back }

  /** Between two acceptances of one nonce and timestamp the clock never reads more than
      the reach above the first. */
  lemma SameStaysInside(skew: nat, window: nat, ahead: nat, back: nat, reqs: seq<Request>, i: nat)
    requires window >= Reach(skew, ahead, back)
    requires LosesAtMost(skew, back, reqs) && DatedWithin(skew, ahead, reqs)
    requires i < |reqs| - 1 && Passes(skew, reqs[i]) && Passes(skew, reqs[|reqs| - 1])
    requires reqs[i].timestampMs == reqs[|reqs| - 1].timestampMs
    ensures StillInside(skew, window, reqs[..|reqs| - 1], i)
    ensures Second(reqs[|reqs| - 1]) <= Second(reqs[i]) + window
  {
    var last := reqs[|reqs| - 1];
    var far := Reach(skew, ahead, back);
    assert reqs[i].timestampMs <= reqs[i].nowMs + Min(ahead, skew) * 1000;
    assert last.nowMs + back * 1000 <= reqs[i].nowMs + far * 1000;
    forall k | i <= k < |reqs| && Passes(skew, reqs[k]) ensures Second(reqs[k]) <= Second(reqs[i]) + window {
      if k < |reqs| - 1 { assert reqs[k].nowMs <= last.nowMs + back * 1000; }
      Seconds(reqs[k].nowMs, reqs[i].nowMs, far);
    }
  }

  lemma Seconds(later: nat, earlier: nat, far: nat)
    requires later <= earlier + far * 1000
    ensures later / 1000 <= earlier / 1000 + far
  {
  }

  lemma Restricted(skew: nat, ahead: nat, back: nat, reqs: seq<Request>)
    requires reqs != [] && LosesAtMost(skew, back, reqs) && DatedWithin(skew, ahead, reqs)
    ensures LosesAtMost(skew, back, reqs[..|reqs| - 1]) && DatedWithin(skew, ahead, reqs[..|reqs| - 1])
  {
  }

  lemma {:induction false} WindowSuffices(skew: nat, window: nat, ahead: nat, back: nat, reqs: seq<Request>)
    requires window >= Reach(skew, ahead, back)
    requires LosesAtMost(skew, back, reqs) && DatedWithin(skew, ahead, reqs)
    ensures AcceptedOnce(reqs, VerifyRun(skew, window, reqs).1)
  {
    if reqs != [] {
      var init, last := reqs[..|reqs| - 1], reqs[|reqs| - 1];
      Restricted(skew, ahead, back, reqs);
      WindowSuffices(skew, window, ahead, back, init);
      VerifierRemembers(skew, window, init);
      var before, r := VerifyRun(skew, window, init), VerifyRun(skew, window, reqs);
      forall i | 0 <= i < |init| && r.1[i] && r.1[|init|]
        ensures reqs[i].nonce != last.nonce || reqs[i].timestampMs != last.timestampMs
      {
        assert init[i] == reqs[i] && before.1[i];
        if reqs[i].timestampMs == last.timestampMs {
          SameStaysInside(skew, window, ahead, back, reqs, i);
        }
      }
    }
  }

  /** One request met early and late, and between them another that prunes the cache. */
  lemma WindowNecessary(skew: nat, window: nat, ahead: nat, back: nat) returns (reqs: seq<Request>)
    requires window < Reach(skew, ahead, back)
    ensures LosesAtMost(skew, back, reqs) && DatedWithin(skew, ahead, reqs)
    ensures back == 0 ==> ForwardMs(reqs)
    ensures var far := Reach(skew, ahead, back) * 1000;
      |reqs| == 3 && reqs[0].nowMs == 0 && reqs[1].nowMs == far && reqs[2].nowMs == far - back * 1000
    ensures !AcceptedOnce(reqs, VerifyRun(skew, window, reqs).1)
  {
    var lead, far := Min(ahead, skew), Reach(skew, ahead, back);
    var early := Request("n", lead * 1000, true, 0);
    var other := Request("m", far * 1000, true, far * 1000);
    var late := early.(nowMs := (lead + skew) * 1000);
    reqs := [early, other, late];
    assert Passes(skew, early) && Passes(skew, other) && Passes(skew, late);
    AllAccepted(skew, window, early, other, late);
    assert reqs[0].nonce == reqs[2].nonce;
  }

  /** The second request pushes the first out of the window, whatever comes third. */
  lemma AllAccepted(skew: nat, window: nat, a: Request, b: Request, c: Request)
    requires Passes(skew, a) && Passes(skew, b) && Passes(skew, c)
    requires a.nonce == c.nonce != b.nonce && Second(a) + window < Second(b)
    ensures VerifyRun(skew, window, [a, b, c]).1 == [true, true, true]
  {
    assert [a, b, c][..2] == [a, b] && [a, b][..1] == [a] && [a][..0] == [];
    assert VerifyRun(skew, window, []) == (map[], []);
    assert Retained(map[], Cutoff(window, Second(a))) == map[];
    assert [] + [true] == [true] && [true] + [true] == [true, true] && [true, true] + [true] == [true, true, true];
    assert VerifyRun(skew, window, [a]) == (map[a.nonce := Second(a)], [true]);
    assert Retained(map[a.nonce := Second(a)], Cutoff(window, Second(b))) == map[];
    assert VerifyRun(skew, window, [a, b]) == (map[b.nonce := Second(b)], [true, true]);
  }

  /** On all runs where requests that pass are dated at most `ahead` seconds after the
      clock, and their readings lose at most `back` seconds in the order of the checks, no
      nonce and timestamp is accepted twice exactly when the window covers the skew, that lead
      (no more than another skew) and that loss together. Refused requests are free. */
  lemma NoReplayIff(skew: nat, window: nat, ahead: nat, back: nat)
    ensures window >= Reach(skew, ahead, back) <==>
      forall reqs :: LosesAtMost(skew, back, reqs) && DatedWithin(skew, ahead, reqs) ==>
        AcceptedOnce(reqs, VerifyRun(skew, window, reqs).1)
  {
    if window >= Reach(skew, ahead, back) {
      forall reqs | LosesAtMost(skew, back, reqs) && DatedWithin(skew, ahead, reqs)
        ensures AcceptedOnce(reqs, VerifyRun(skew, window, reqs).1)
      {
        WindowSuffices(skew, window, ahead, back, reqs);
      }
    } else {
      var reqs := WindowNecessary(skew, window, ahead, back);
    }
  }

  /** In particular, when readings reach the cache in order: twice the skew, for all requests. */
  lemma TwiceTheSkewIff(skew: nat, window: nat)
    ensures window >= 2 * skew <==>
      forall reqs :: ForwardMs(reqs) ==> AcceptedOnce(reqs, VerifyRun(skew, window, reqs).1)
  {
    if window >= 2 * skew {
      forall reqs | ForwardMs(reqs) ensures AcceptedOnce(reqs, VerifyRun(skew, window, reqs).1) {
        WindowSuffices(skew, window, skew, 0, reqs);
      }
    } else {
      var reqs := WindowNecessary(skew, window, skew, 0);
    }
  }

  // ---- requests handled side by side ----

  /** The run is in the order of taking the cache's mutex, at the times `locks` on a clock
      that never goes back; each request that passes took it at most `late` seconds after
      it read that clock. */
  predicate InLockOrder(skew: nat, late: nat, reqs: seq<Request>, locks: seq<nat>) {
    && |locks| == |reqs|
    && (forall i, j :: 0 <= i < j < |reqs| && Passes(skew, reqs[i]) && Passes(skew, reqs[j]) ==>
          locks[i] <= locks[j])
    && (forall i :: 0 <= i < |reqs| && Passes(skew, reqs[i]) ==>
          reqs[i].nowMs <= locks[i] <= reqs[i].nowMs + late * 1000)
  }

  /** Waiting for the mutex looks to the cache like a clock that goes back. */
  lemma WaitingLoses(skew: nat, late: nat, reqs: seq<Request>, locks: seq<nat>)
    requires InLockOrder(skew, late, reqs, locks)
    ensures LosesAtMost(skew, late, reqs)
  {
    forall i, j | 0 <= i < j < |reqs| && Passes(skew, reqs[i]) && Passes(skew, reqs[j])
      ensures reqs[i].nowMs <= reqs[j].nowMs + late * 1000
    {
      assert reqs[i].nowMs <= locks[i] <= locks[j];
    }
  }

  /** One request met early and late, the late one waiting while another prunes the cache. */
  lemma LateNecessary(skew: nat, window: nat, ahead: nat, late: nat)
    returns (reqs: seq<Request>, locks: seq<nat>)
    requires window < Reach(skew, ahead, late)
    ensures InLockOrder(skew, late, reqs, locks) && DatedWithin(skew, ahead, reqs)
    ensures !AcceptedOnce(reqs, VerifyRun(skew, window, reqs).1)
  {
    var far := Reach(skew, ahead, late) * 1000;
    reqs := WindowNecessary(skew, window, ahead, late);
    locks := [0, far, far];
  }

  /** Requests handled side by side on a clock that never goes back: no nonce and timestamp
      is accepted twice in any run exactly when the window covers the skew, the lead of
      requests that pass (no more than another skew) and the longest wait between reading
      the clock and taking the mutex together. */
  lemma LockOrderIff(skew: nat, window: nat, ahead: nat, late: nat)
    ensures window >= Reach(skew, ahead, late) <==>
      forall reqs, locks :: InLockOrder(skew, late, reqs, locks) && DatedWithin(skew, ahead, reqs) ==>
        AcceptedOnce(reqs, VerifyRun(skew, window, reqs).1)
  {
    if window >= Reach(skew, ahead, late) {
      forall reqs, locks | InLockOrder(skew, late, reqs, locks) && DatedWithin(skew, ahead, reqs)
        ensures AcceptedOnce(reqs, VerifyRun(skew, window, reqs).1)
      {
        WaitingLoses(skew, late, reqs, locks);
        WindowSuffices(skew, window, ahead, late, reqs);
      }
    } else {
      var reqs, locks := LateNecessary(skew, window, ahead, late);
    }
  }
}
