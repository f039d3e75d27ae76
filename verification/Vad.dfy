/** The voice activity detector: splits an endless stream of sample chunks into
    utterances, with pre-roll, a length cap, a silence cut-off and the discarding of
    segments with too little speech. */
module Vad {
  import opened Common

  const U64_MAX: nat := 0xFFFF_FFFF_FFFF_FFFF

  function Saturate(n: nat): nat { Min(n, U64_MAX) }

  function SamplesForMs(rate: nat, ms: nat): nat { Saturate(rate * ms) / 1000 }

  datatype Config = Config(
    sampleRateHz: nat, silenceSubmitMs: nat, minSpeechMs: nat, prerollMs: nat, maxUtteranceMs: nat)
  {
    function Silence(): nat { SamplesForMs(sampleRateHz, silenceSubmitMs) }
    function MinSpeech(): nat { SamplesForMs(sampleRateHz, minSpeechMs) }
    function Preroll(): nat { SamplesForMs(sampleRateHz, prerollMs) }
    function MaxLength(): nat { SamplesForMs(sampleRateHz, maxUtteranceMs) }
  }

  datatype State<S> = State(
    preroll: seq<S>, utterance: seq<S>, speaking: bool, speech: nat, silence: nat)

  /** The last `n` elements, or all when there are fewer. */
  function LastOf<S>(s: seq<S>, n: nat): seq<S> {
    if |s| <= n then s else s[|s| - n..]
  }

  lemma DropsFirst<S>(s: seq<S>, n: nat)
    requires |s| > n
    ensures LastOf(s[1..], n) == LastOf(s, n)
  {
  }

  lemma LastOfMore<S>(s: seq<S>, x: S, n: nat)
    ensures LastOf(LastOf(s, n) + [x], n) == LastOf(s + [x], n)
  {
  }

  /** Only the last elements matter to what the last are after one more. */
  lemma OneLater<S>(s: seq<S>, more: seq<S>, i: nat, n: nat)
    requires i < |more|
    ensures LastOf(LastOf(s + more[..i], n) + [more[i]], n) == LastOf(s + more[..i + 1], n)
  {
    assert s + more[..i + 1] == s + more[..i] + [more[i]];
    LastOfMore(s + more[..i], more[i], n);
  }

  function FirstOf<S>(s: seq<S>, n: nat): seq<S> {
    if |s| <= n then s else s[..n]
  }

  function Idle<S>(): State<S> { State([], [], false, 0, 0) }

  /** Ending a segment: the utterance cut to the cap, when it held enough speech. */
  function Taken<S>(cfg: Config, st: State<S>): Option<seq<S>> {
    if st.speech >= cfg.MinSpeech() then Some(FirstOf(st.utterance, cfg.MaxLength())) else None
  }

  /** The state after a non-empty chunk, before the detector decides whether to end. */
  function Absorb<S>(cfg: Config, st: State<S>, chunk: seq<S>, loud: bool): State<S> {
    if loud then
      State(if st.speaking then st.preroll else [],
            (if st.speaking then st.utterance else st.utterance + st.preroll) + chunk,
            true, Saturate(st.speech + |chunk|), 0)
    else if st.speaking then
      st.(utterance := st.utterance + chunk, silence := Saturate(st.silence + |chunk|))
    else
      st.(preroll := LastOf(st.preroll + chunk, cfg.Preroll()))
  }

  predicate Ends<S>(cfg: Config, st: State<S>) {
    st.speaking && (|st.utterance| >= cfg.MaxLength() || st.silence >= cfg.Silence())
  }

  /** One call: what the detector holds afterwards and what it hands out. */
  function Feed<S>(cfg: Config, st: State<S>, chunk: seq<S>, loud: bool): (State<S>, Option<seq<S>>) {
    if chunk == [] then (st, None)
    else
      var mid := Absorb(cfg, st, chunk, loud);
      if Ends(cfg, mid) then (Idle(), Taken(cfg, mid)) else (mid, None)
  }

  function Finish<S>(cfg: Config, st: State<S>): (State<S>, Option<seq<S>>) {
    if st.speaking then (Idle(), Taken(cfg, st)) else (st, None)
  }

  /** The detector as the plugin runs it; `isSpeech` stands for the loudness test. */
  class VoiceActivityDetector<S> {
    const config: Config
    const isSpeech: seq<S> -> bool
    var preroll: seq<S>
    var utterance: seq<S>
    var speaking: bool
    var speechSamples: nat
    var trailingSilence: nat

    function View(): State<S>
      reads this
    {
      State(preroll, utterance, speaking, speechSamples, trailingSilence)
    }

    ghost predicate Valid()
      reads this
    {
      |preroll| <= config.Preroll() && (speaking ==> preroll == [])
    }

    constructor (config: Config, isSpeech: seq<S> -> bool)
      ensures Valid() && View() == Idle() && this.config == config && this.isSpeech == isSpeech
    {
      this.config, this.isSpeech := config, isSpeech;
      preroll, utterance, speaking, speechSamples, trailingSilence := [], [], false, 0, 0;
    }

    method PushPreroll(chunk: seq<S>)
      requires Valid() && !speaking
      modifies this`preroll
      ensures Valid() && preroll == LastOf(old(preroll) + chunk, config.Preroll())
    {
      var cap := config.Preroll();
      ghost var before := preroll;
      assert before + chunk[..0] == before;
      for i := 0 to |chunk|
        invariant preroll == LastOf(before + chunk[..i], cap)
      {
        preroll := preroll + [chunk[i]];
        OneLater(before, chunk, i, cap);
        while |preroll| > cap
          invariant LastOf(preroll, cap) == LastOf(before + chunk[..i + 1], cap)
        {
          DropsFirst(preroll, cap);
          preroll := preroll[1..];
        }
      }
      assert chunk[..|chunk|] == chunk;
    }

    method TakeValidUtterance() returns (out: Option<seq<S>>)
      requires Valid() && speaking
      modifies this
      ensures Valid() && View() == Idle() && out == Taken(config, old(View()))
    {
      var speech, taken := speechSamples, utterance;
      utterance, speaking, speechSamples, trailingSilence, preroll := [], false, 0, 0, [];
      if |taken| > config.MaxLength() {
        taken := taken[..config.MaxLength()];
      }
      out := if speech >= config.MinSpeech() then Some(taken) else None;
    }

    method ProcessChunk(chunk: seq<S>) returns (out: Option<seq<S>>)
      requires Valid()
      modifies this
      ensures Valid()
      ensures (View(), out) == Feed(config, old(View()), chunk, isSpeech(chunk))
    {
      out := None;
      if chunk == [] { return; }
      if isSpeech(chunk) {
        if !speaking {
          speaking := true;
          utterance, preroll := utterance + preroll, [];
        }
        utterance := utterance + chunk;
        speechSamples := Saturate(speechSamples + |chunk|);
        trailingSilence := 0;
      } else if speaking {
        utterance := utterance + chunk;
        trailingSilence := Saturate(trailingSilence + |chunk|);
      } else {
        PushPreroll(chunk);
      }
      assert View() == Absorb(config, old(View()), chunk, isSpeech(chunk));
      if speaking && |utterance| >= config.MaxLength() {
        out := TakeValidUtterance();
      } else if speaking && trailingSilence >= config.Silence() {
        out := TakeValidUtterance();
      }
    }

    method FinishStream() returns (out: Option<seq<S>>)
      requires Valid()
      modifies this
      ensures Valid() && (View(), out) == Finish(config, old(View()))
    {
      if speaking { out := TakeValidUtterance(); } else { out := None; }
    }
  }

  // ---- whole runs ----

  datatype Input<S> = Chunk(samples: seq<S>) | Flush

  /** What becomes of a stretch of the input. */
  datatype Fate = Emitted | TooShort | CutOff | Evicted

  /** What is known of a segment when it ends: the previous one ended at `since`, its
      first speech chunk began at `onset`, it ran for `length` samples, speech chunks
      brought `speech` of them, `quiet` came after the last one, and `flushed` tells
      that the stream was ended rather than a limit met. */
  datatype Story = Story(since: nat, onset: nat, length: nat, speech: nat, quiet: nat, flushed: bool)

  /** Samples `lo..hi` of the whole input. */
  datatype Piece = Piece(fate: Fate, lo: nat, hi: nat, story: Option<Story>)

  /** A run: the detector's state, everything heard, everything handed out, and the
      account of every sample no longer held. `RunTold` below proves that `since`,
      `onset`, `speech` and `quiet` are what the input alone says. */
  datatype Track<S> = Track(
    st: State<S>, heard: seq<S>, outputs: seq<seq<S>>, pieces: seq<Piece>,
    since: nat, onset: nat, speech: nat, quiet: nat)

  function Opening<S>(): Track<S> { Track(Idle(), [], [], [], 0, 0, 0, 0) }

  function End(pieces: seq<Piece>): nat {
    if pieces == [] then 0 else pieces[|pieces| - 1].hi
  }

  function Handed<S>(out: Option<seq<S>>): seq<seq<S>> {
    if out.Some? then [out.value] else []
  }

  /** The piece a segment that ends now is accounted to. */
  function Segment<S>(cfg: Config, tr: Track<S>, flushed: bool): Piece {
    var lo := End(tr.pieces);
    var length := if |tr.heard| < lo then 0 else |tr.heard| - lo;
    Piece(if Taken(cfg, tr.st).Some? then Emitted else TooShort, lo, lo + Min(length, cfg.MaxLength()),
          Some(Story(tr.since, tr.onset, length, tr.speech, tr.quiet, flushed)))
  }

  /** What the length cap cut off, if anything. */
  function Remnant(lo: nat, hi: nat): seq<Piece> {
    if lo < hi then [Piece(CutOff, lo, hi, None)] else []
  }

  /** Close the account of a segment that ran from the end of the pieces up to now. */
  function Close<S>(cfg: Config, tr: Track<S>, flushed: bool): Track<S> {
    var segment := Segment(cfg, tr, flushed);
    tr.(st := Idle(), outputs := tr.outputs + Handed(Taken(cfg, tr.st)),
        pieces := tr.pieces + [segment] + Remnant(segment.hi, |tr.heard|),
        since := |tr.heard|, speech := 0, quiet := 0)
  }

  /** What leaves the pre-roll, up to sample `hi`, is given up. */
  function Slid(pieces: seq<Piece>, hi: nat): seq<Piece> {
    if End(pieces) < hi then pieces + [Piece(Evicted, End(pieces), hi, None)] else pieces
  }

  /** Follow one chunk up to the point where the detector may end the segment. */
  function Hear<S>(cfg: Config, tr: Track<S>, chunk: seq<S>, loud: bool): Track<S> {
    var heard := tr.heard + chunk;
    var mid := Absorb(cfg, tr.st, chunk, loud);
    if loud then
      tr.(st := mid, heard := heard, onset := if tr.st.speaking then tr.onset else |tr.heard|,
          speech := tr.speech + |chunk|, quiet := 0)
    else if tr.st.speaking then
      tr.(st := mid, heard := heard, quiet := tr.quiet + |chunk|)
    else
      tr.(st := mid, heard := heard,
          pieces := Slid(tr.pieces, if |heard| < |mid.preroll| then 0 else |heard| - |mid.preroll|))
  }

  function Next<S>(cfg: Config, isSpeech: seq<S> -> bool, tr: Track<S>, input: Input<S>): (r: Track<S>)
    ensures input.Chunk? ==> r.st == Feed(cfg, tr.st, input.samples, isSpeech(input.samples)).0
    ensures input.Chunk? ==>
      r.outputs == tr.outputs + Handed(Feed(cfg, tr.st, input.samples, isSpeech(input.samples)).1)
    ensures input.Flush? ==> r.st == Finish(cfg, tr.st).0
    ensures input.Flush? ==> r.outputs == tr.outputs + Handed(Finish(cfg, tr.st).1)
    ensures r.heard == tr.heard + if input.Chunk? then input.samples else []
  {
    match input
    case Chunk(samples) =>
      if samples == [] then tr
      else
        var mid := Hear(cfg, tr, samples, isSpeech(samples));
        if Ends(cfg, mid.st) then Close(cfg, mid, false) else mid
    case Flush => if tr.st.speaking then Close(cfg, tr, true) else tr
  }

  function Run<S>(cfg: Config, isSpeech: seq<S> -> bool, inputs: seq<Input<S>>): Track<S> {
    if inputs == [] then Opening()
    else Next(cfg, isSpeech, Run(cfg, isSpeech, inputs[..|inputs| - 1]), inputs[|inputs| - 1])
  }

  /** The pieces lie end to end from sample 0, so every sample up to `End` is in exactly one. */
  predicate Tiles(pieces: seq<Piece>) {
    && (forall i :: 0 <= i < |pieces| ==> pieces[i].lo <= pieces[i].hi)
    && (|pieces| > 0 ==> pieces[0].lo == 0)
    && (forall i :: 0 < i < |pieces| ==> pieces[i].lo == pieces[i - 1].hi)
  }

  /** The slices of the input the emitted pieces stand for, in order. */
  function Slices<S>(heard: seq<S>, pieces: seq<Piece>): seq<seq<S>>
    requires Tiles(pieces) && End(pieces) <= |heard|
  {
    if pieces == [] then []
    else
      var init, last := pieces[..|pieces| - 1], pieces[|pieces| - 1];
      assert last.lo == End(init);
      Slices(heard, init) + if last.fate.Emitted? then [heard[last.lo..last.hi]] else []
  }

  /** `n` samples last no longer than `ms` milliseconds; the product saturates at 64 bits. */
  predicate Fits(cfg: Config, n: nat, ms: nat) {
    1000 * n <= Min(cfg.sampleRateHz * ms, 0xFFFF_FFFF_FFFF_FFFF)
  }

  /** One sample more than `n` would last longer than `ms` milliseconds. */
  predicate Fills(cfg: Config, n: nat, ms: nat) {
    Min(cfg.sampleRateHz * ms, 0xFFFF_FFFF_FFFF_FFFF) < 1000 * (n + 1)
  }

  /** A limit in samples is the configured time, rounded down to whole samples. */
  lemma InSamples(cfg: Config, ms: nat, n: nat)
    ensures n <= SamplesForMs(cfg.sampleRateHz, ms) <==> Fits(cfg, n, ms)
    ensures n >= SamplesForMs(cfg.sampleRateHz, ms) <==> Fills(cfg, n, ms)
  {
    var x := Saturate(cfg.sampleRateHz * ms);
    assert x == Min(cfg.sampleRateHz * ms, 0xFFFF_FFFF_FFFF_FFFF);
    assert x == 1000 * (x / 1000) + x % 1000;
  }

  /** An ended segment, in milliseconds of the configuration: cut exactly at the longest
      utterance, handed out exactly when its speech fills the least speech, started the
      pre-roll before its first speech chunk or as early as the previous segment allowed,
      and ended only at the longest utterance, the silence limit or with the stream. */
  predicate SegmentOk(cfg: Config, p: Piece) {
    p.story.Some? && p.lo <= p.hi &&
    var s := p.story.value;
    && p.hi - p.lo <= s.length && Fits(cfg, p.hi - p.lo, cfg.maxUtteranceMs)
    && (p.hi - p.lo < s.length ==> Fills(cfg, p.hi - p.lo, cfg.maxUtteranceMs))
    && (p.fate.Emitted? <==> Fills(cfg, s.speech, cfg.minSpeechMs))
    && s.since <= p.lo <= s.onset && Fits(cfg, s.onset - p.lo, cfg.prerollMs)
    && (s.since < p.lo ==> Fills(cfg, s.onset - p.lo, cfg.prerollMs))
    && (s.flushed || Fills(cfg, s.length, cfg.maxUtteranceMs) || Fills(cfg, s.quiet, cfg.silenceSubmitMs))
  }

  predicate SegmentsOk(cfg: Config, pieces: seq<Piece>) {
    forall i :: 0 <= i < |pieces| && (pieces[i].fate.Emitted? || pieces[i].fate.TooShort?) ==>
      SegmentOk(cfg, pieces[i])
  }

  /** What a state between calls holds. */
  ghost predicate HoldsOk<S>(cfg: Config, tr: Track<S>)
    requires End(tr.pieces) <= |tr.heard|
  {
    var st := tr.st;
    && st.preroll + st.utterance == tr.heard[End(tr.pieces)..]
    && tr.since <= End(tr.pieces)
    && st.speech == Saturate(tr.speech)
    && st.silence == Saturate(tr.quiet)
    && (st.speaking ==>
          && st.preroll == []
          && End(tr.pieces) <= tr.onset <= |tr.heard|
          && tr.onset - End(tr.pieces) == Min(cfg.Preroll(), tr.onset - tr.since))
    && (!st.speaking ==>
          && st.utterance == [] && tr.speech == tr.quiet == 0
          && |st.preroll| == Min(cfg.Preroll(), |tr.heard| - tr.since))
  }

  ghost predicate Accounted<S>(cfg: Config, tr: Track<S>) {
    && Tiles(tr.pieces)
    && End(tr.pieces) <= |tr.heard|
    && tr.outputs == Slices(tr.heard, tr.pieces)
    && SegmentsOk(cfg, tr.pieces)
    && HoldsOk(cfg, tr)
  }

  lemma {:induction false} SlicesGrow<S>(heard: seq<S>, more: seq<S>, pieces: seq<Piece>)
    requires Tiles(pieces) && End(pieces) <= |heard|
    ensures Slices(heard + more, pieces) == Slices(heard, pieces)
  {
    if pieces != [] {
      var init, last := pieces[..|pieces| - 1], pieces[|pieces| - 1];
      SlicesGrow(heard, more, init);
      assert (heard + more)[last.lo..last.hi] == heard[last.lo..last.hi];
    }
  }

  lemma TilesAppend(pieces: seq<Piece>, p: Piece)
    requires Tiles(pieces) && p.lo == End(pieces) && p.lo <= p.hi
    ensures Tiles(pieces + [p]) && End(pieces + [p]) == p.hi
  {
  }

  lemma SlicesAppend<S>(heard: seq<S>, pieces: seq<Piece>, p: Piece)
    requires Tiles(pieces) && p.lo == End(pieces) && p.lo <= p.hi <= |heard|
    ensures Tiles(pieces + [p])
    ensures Slices(heard, pieces + [p]) ==
      Slices(heard, pieces) + if p.fate.Emitted? then [heard[p.lo..p.hi]] else []
  {
    TilesAppend(pieces, p);
    assert (pieces + [p])[..|pieces|] == pieces;
  }

  /** Speech, or silence inside a segment: nothing is given up. */
  lemma HearInside<S>(cfg: Config, tr: Track<S>, chunk: seq<S>, loud: bool)
    requires Accounted(cfg, tr) && (loud || tr.st.speaking)
    ensures Accounted(cfg, Hear(cfg, tr, chunk, loud))
  {
    var lo := End(tr.pieces);
    SlicesGrow(tr.heard, chunk, tr.pieces);
    assert (tr.heard + chunk)[lo..] == tr.heard[lo..] + chunk;
    var r := Hear(cfg, tr, chunk, loud);
    assert r.st.preroll + r.st.utterance == tr.heard[lo..] + chunk;
    assert HoldsOk(cfg, r);
  }

  /** What slides out of the pre-roll tiles on. */
  lemma SlidePieces<S>(heard: seq<S>, more: seq<S>, pieces: seq<Piece>, hi: nat)
    requires Tiles(pieces) && End(pieces) <= |heard| && End(pieces) <= hi <= |heard| + |more|
    ensures var all := Slid(pieces, hi);
      Tiles(all) && End(all) == hi && Slices(heard + more, all) == Slices(heard, pieces)
  {
    SlicesGrow(heard, more, pieces);
    if End(pieces) < hi {
      var gone := Piece(Evicted, End(pieces), hi, None);
      TilesAppend(pieces, gone);
      SlicesAppend(heard + more, pieces, gone);
    }
  }

  lemma SlidSegments(cfg: Config, pieces: seq<Piece>, hi: nat)
    requires SegmentsOk(cfg, pieces)
    ensures SegmentsOk(cfg, Slid(pieces, hi))
  {
    SegmentsAppend(cfg, pieces, Piece(Evicted, End(pieces), hi, None));
  }

  /** The run once silence between segments moved its pre-roll to sample `hi` on. */
  function Moved<S>(tr: Track<S>, chunk: seq<S>, hi: nat): Track<S>
    requires hi <= |tr.heard| + |chunk|
  {
    var heard := tr.heard + chunk;
    tr.(st := tr.st.(preroll := heard[hi..]), heard := heard, pieces := Slid(tr.pieces, hi))
  }

  lemma HearsMoved<S>(cfg: Config, tr: Track<S>, chunk: seq<S>) returns (hi: nat)
    requires End(tr.pieces) <= |tr.heard| && HoldsOk(cfg, tr) && !tr.st.speaking
    ensures End(tr.pieces) <= hi <= |tr.heard| + |chunk|
    ensures |tr.heard| + |chunk| - hi == Min(cfg.Preroll(), |tr.heard| + |chunk| - End(tr.pieces))
    ensures Hear(cfg, tr, chunk, false) == Moved(tr, chunk, hi)
  {
    assert tr.st.preroll == tr.heard[End(tr.pieces)..];
    SlidePreroll(tr.heard, chunk, End(tr.pieces), cfg.Preroll());
    hi := |tr.heard| + |chunk| - |LastOf(tr.st.preroll + chunk, cfg.Preroll())|;
  }

  /** Silence between segments: the pre-roll slides along. */
  lemma HearOutside<S>(cfg: Config, tr: Track<S>, chunk: seq<S>)
    requires Accounted(cfg, tr) && !tr.st.speaking
    ensures Accounted(cfg, Hear(cfg, tr, chunk, false))
  {
    var hi := HearsMoved(cfg, tr, chunk);
    SlidePieces(tr.heard, chunk, tr.pieces, hi);
    SlidSegments(cfg, tr.pieces, hi);
    PrerollLength(cfg, tr);
    QuietHolds(cfg, Moved(tr, chunk, hi));
  }

  lemma PrerollLength<S>(cfg: Config, tr: Track<S>)
    requires End(tr.pieces) <= |tr.heard| && HoldsOk(cfg, tr) && !tr.st.speaking
    ensures |tr.heard| - End(tr.pieces) == Min(cfg.Preroll(), |tr.heard| - tr.since)
  {
    assert |tr.st.preroll + tr.st.utterance| == |tr.heard[End(tr.pieces)..]|;
  }

  lemma QuietHolds<S>(cfg: Config, tr: Track<S>)
    requires tr.st == State(tr.st.preroll, [], false, 0, 0) && tr.speech == tr.quiet == 0
    requires tr.since <= End(tr.pieces) <= |tr.heard| && tr.st.preroll == tr.heard[End(tr.pieces)..]
    requires |tr.st.preroll| == Min(cfg.Preroll(), |tr.heard| - tr.since)
    ensures HoldsOk(cfg, tr)
  {
    assert tr.st.preroll + [] == tr.st.preroll;
  }

  /** The last of what was held and the chunk is the last of everything heard. */
  lemma SlidePreroll<S>(heard: seq<S>, chunk: seq<S>, lo: nat, cap: nat)
    requires lo <= |heard|
    ensures var last := LastOf(heard[lo..] + chunk, cap);
      && |last| == Min(cap, |heard| - lo + |chunk|)
      && last == (heard + chunk)[|heard + chunk| - |last|..]
  {
    assert heard[lo..] + chunk == (heard + chunk)[lo..];
  }

  lemma HearAccounts<S>(cfg: Config, tr: Track<S>, chunk: seq<S>, loud: bool)
    requires Accounted(cfg, tr)
    ensures Accounted(cfg, Hear(cfg, tr, chunk, loud))
  {
    if loud || tr.st.speaking {
      HearInside(cfg, tr, chunk, loud);
    } else {
      HearOutside(cfg, tr, chunk);
    }
  }

  lemma SegmentsAppend(cfg: Config, pieces: seq<Piece>, p: Piece)
    requires SegmentsOk(cfg, pieces) && (p.fate.Evicted? || p.fate.CutOff? || SegmentOk(cfg, p))
    ensures SegmentsOk(cfg, pieces + [p])
  {
  }

  /** The same in samples. */
  predicate SegmentInSamples(cfg: Config, p: Piece) {
    p.story.Some? && p.lo <= p.hi &&
    var s := p.story.value;
    && p.hi - p.lo == Min(s.length, cfg.MaxLength())
    && (p.fate.Emitted? <==> s.speech >= cfg.MinSpeech())
    && s.since <= p.lo <= s.onset
    && s.onset - p.lo == Min(cfg.Preroll(), s.onset - s.since)
    && (s.flushed || s.length >= cfg.MaxLength() || s.quiet >= cfg.Silence())
  }

  lemma SamplesToMs(cfg: Config, p: Piece)
    requires SegmentInSamples(cfg, p)
    ensures SegmentOk(cfg, p)
  {
    var s := p.story.value;
    InSamples(cfg, cfg.maxUtteranceMs, p.hi - p.lo);
    InSamples(cfg, cfg.maxUtteranceMs, s.length);
    InSamples(cfg, cfg.minSpeechMs, s.speech);
    InSamples(cfg, cfg.prerollMs, s.onset - p.lo);
    InSamples(cfg, cfg.silenceSubmitMs, s.quiet);
  }

  lemma SegmentFits<S>(cfg: Config, tr: Track<S>, flushed: bool)
    requires Accounted(cfg, tr) && tr.st.speaking && (flushed || Ends(cfg, tr.st))
    ensures SegmentOk(cfg, Segment(cfg, tr, flushed))
    ensures SegmentsOk(cfg, Close(cfg, tr, flushed).pieces)
  {
    SpeechCounts(cfg, tr.speech);
    SilenceCounts(cfg, tr.quiet);
    SamplesToMs(cfg, Segment(cfg, tr, flushed));
    SegmentsAppend(cfg, tr.pieces, Segment(cfg, tr, flushed));
  }

  /** The segment and what is cut off it tile the input up to now. */
  lemma ClosedPieces<S>(heard: seq<S>, pieces: seq<Piece>, first: Piece)
    requires Tiles(pieces) && first.lo == End(pieces) && first.lo <= first.hi <= |heard|
    ensures var all := pieces + [first] + Remnant(first.hi, |heard|);
      && Tiles(all)
      && End(all) == |heard|
      && Slices(heard, all) ==
           Slices(heard, pieces) + if first.fate.Emitted? then [heard[first.lo..first.hi]] else []
  {
    SlicesAppend(heard, pieces, first);
    TilesAppend(pieces, first);
    if first.hi < |heard| {
      SlicesAppend(heard, pieces + [first], Piece(CutOff, first.hi, |heard|, None));
    } else {
      assert pieces + [first] + [] == pieces + [first];
    }
  }

  lemma CloseKeeps<S>(cfg: Config, tr: Track<S>, flushed: bool)
    requires Accounted(cfg, tr) && tr.st.speaking && (flushed || Ends(cfg, tr.st))
    ensures Accounted(cfg, Close(cfg, tr, flushed))
  {
    SegmentFits(cfg, tr, flushed);
    CloseTiles(cfg, tr, flushed);
  }

  lemma CloseTiles<S>(cfg: Config, tr: Track<S>, flushed: bool)
    requires Tiles(tr.pieces) && End(tr.pieces) <= |tr.heard| && HoldsOk(cfg, tr) && tr.st.speaking
    requires tr.outputs == Slices(tr.heard, tr.pieces)
    ensures var r := Close(cfg, tr, flushed);
      Tiles(r.pieces) && End(r.pieces) == |r.heard| && r.outputs == Slices(r.heard, r.pieces) && HoldsOk(cfg, r)
  {
    var segment := Segment(cfg, tr, flushed);
    assert tr.st.utterance == tr.heard[End(tr.pieces)..];
    ClosedPieces(tr.heard, tr.pieces, segment);
    HandedIsSlice(cfg, tr, flushed);
    IdleHolds(cfg, Close(cfg, tr, flushed));
  }

  lemma HandedIsSlice<S>(cfg: Config, tr: Track<S>, flushed: bool)
    requires End(tr.pieces) <= |tr.heard| && tr.st.utterance == tr.heard[End(tr.pieces)..]
    ensures var segment := Segment(cfg, tr, flushed);
      && segment.lo <= segment.hi <= |tr.heard|
      && Handed(Taken(cfg, tr.st)) == if segment.fate.Emitted? then [tr.heard[segment.lo..segment.hi]] else []
  {
    CutSlice(tr.st.utterance, tr.heard, End(tr.pieces), cfg.MaxLength());
  }

  lemma IdleHolds<S>(cfg: Config, tr: Track<S>)
    requires tr.st == Idle() && End(tr.pieces) == |tr.heard| == tr.since && tr.speech == tr.quiet == 0
    ensures HoldsOk(cfg, tr)
  {
  }

  lemma CutSlice<S>(utterance: seq<S>, heard: seq<S>, lo: nat, max: nat)
    requires lo <= |heard| && utterance == heard[lo..]
    ensures FirstOf(utterance, max) == heard[lo..lo + Min(|heard| - lo, max)]
  {
  }

  /** A saturating counter decides the minimum exactly as the true count would. */
  lemma SpeechCounts(cfg: Config, speech: nat)
    ensures Saturate(speech) >= cfg.MinSpeech() <==> speech >= cfg.MinSpeech()
  {
    assert cfg.MinSpeech() <= U64_MAX;
  }

  lemma SilenceCounts(cfg: Config, quiet: nat)
    ensures Saturate(quiet) >= cfg.Silence() <==> quiet >= cfg.Silence()
  {
    assert cfg.Silence() <= U64_MAX;
  }

  /** Every run keeps the account of every sample, and between calls a speaking
      detector stays below both of its limits. */
  lemma {:induction false} RunAccounts<S>(cfg: Config, isSpeech: seq<S> -> bool, inputs: seq<Input<S>>)
    ensures Accounted(cfg, Run(cfg, isSpeech, inputs))
    ensures !Ends(cfg, Run(cfg, isSpeech, inputs).st)
  {
    if inputs != [] {
      var init, last := inputs[..|inputs| - 1], inputs[|inputs| - 1];
      RunAccounts(cfg, isSpeech, init);
      var tr := Run(cfg, isSpeech, init);
      if last.Chunk? && last.samples != [] {
        var mid := Hear(cfg, tr, last.samples, isSpeech(last.samples));
        HearAccounts(cfg, tr, last.samples, isSpeech(last.samples));
        if Ends(cfg, mid.st) { CloseKeeps(cfg, mid, false); }
      } else if last.Flush? && tr.st.speaking {
        CloseKeeps(cfg, tr, true);
      }
    }
  }

  // ---- what a run means ----

  predicate Holds(p: Piece, k: nat) { p.lo <= k < p.hi }

  lemma {:induction false} PieceOf(pieces: seq<Piece>, k: nat) returns (i: nat)
    requires Tiles(pieces) && k < End(pieces)
    ensures i < |pieces| && Holds(pieces[i], k)
    ensures forall j :: 0 <= j < |pieces| && Holds(pieces[j], k) ==> j == i
  {
    var last := |pieces| - 1;
    TilesAscend(pieces);
    if pieces[last].lo <= k {
      i := last;
    } else {
      var init := pieces[..last];
      assert End(init) == pieces[last].lo;
      i := PieceOf(init, k);
      assert forall j :: 0 <= j < last ==> init[j] == pieces[j];
    }
  }

  lemma {:induction false} TilesAscend(pieces: seq<Piece>)
    requires Tiles(pieces)
    ensures forall i, j :: 0 <= i < j < |pieces| ==> pieces[i].hi <= pieces[j].lo
  {
    if |pieces| > 1 {
      var last := |pieces| - 1;
      var init := pieces[..last];
      TilesAscend(init);
      forall i, j | 0 <= i < j < |pieces| ensures pieces[i].hi <= pieces[j].lo {
        if j == last && i < last - 1 { assert init[i].hi <= init[last - 1].lo; }
        if j < last { assert init[i].hi <= init[j].lo; }
      }
    }
  }

  predicate InOnePiece(pieces: seq<Piece>, k: nat) {
    exists i :: 0 <= i < |pieces| && Holds(pieces[i], k) &&
      forall j :: 0 <= j < |pieces| && Holds(pieces[j], k) ==> j == i
  }

  predicate InNoPiece(pieces: seq<Piece>, k: nat) {
    forall j :: 0 <= j < |pieces| ==> !Holds(pieces[j], k)
  }

  /** The detector holds sample `k`, at its place behind the pieces. */
  predicate StillHeld<S(==)>(tr: Track<S>, k: nat)
    requires End(tr.pieces) <= k < |tr.heard|
  {
    var held := tr.st.preroll + tr.st.utterance;
    k - End(tr.pieces) < |held| && held[k - End(tr.pieces)] == tr.heard[k]
  }

  lemma PieceHolds(pieces: seq<Piece>, k: nat)
    requires Tiles(pieces) && k < End(pieces)
    ensures InOnePiece(pieces, k)
  {
    var i := PieceOf(pieces, k);
  }

  lemma DetectorHolds<S>(cfg: Config, tr: Track<S>, k: nat)
    requires Accounted(cfg, tr) && End(tr.pieces) <= k < |tr.heard|
    ensures InNoPiece(tr.pieces, k) && StillHeld(tr, k)
  {
    NoPieceBeyond(tr.pieces, k);
    HeldAt(tr.heard, tr.st.preroll + tr.st.utterance, End(tr.pieces), k);
  }

  /** Every sample heard has exactly one fate: it lies in exactly one piece, or the
      detector still holds it, at its place. */
  lemma EverySampleOnce<S>(cfg: Config, isSpeech: seq<S> -> bool, inputs: seq<Input<S>>, k: nat)
    requires k < |Run(cfg, isSpeech, inputs).heard|
    ensures var tr := Run(cfg, isSpeech, inputs);
      if k < End(tr.pieces) then InOnePiece(tr.pieces, k) else InNoPiece(tr.pieces, k) && StillHeld(tr, k)
  {
    RunAccounts(cfg, isSpeech, inputs);
    var tr := Run(cfg, isSpeech, inputs);
    if k < End(tr.pieces) { PieceHolds(tr.pieces, k); } else { DetectorHolds(cfg, tr, k); }
  }

  lemma NoPieceBeyond(pieces: seq<Piece>, k: nat)
    requires Tiles(pieces) && End(pieces) <= k
    ensures forall j :: 0 <= j < |pieces| ==> !Holds(pieces[j], k)
  {
    TilesAscend(pieces);
    forall j | 0 <= j < |pieces| ensures pieces[j].hi <= k {
      if j < |pieces| - 1 { assert pieces[j].hi <= pieces[|pieces| - 1].lo; }
    }
  }

  lemma HeldAt<S>(heard: seq<S>, held: seq<S>, lo: nat, k: nat)
    requires lo <= k < |heard| && held == heard[lo..]
    ensures k - lo < |held| && held[k - lo] == heard[k]
  {
  }

  /** `output` is a copy of the stretch of the input an emitted piece stands for. */
  ghost predicate CopyOf<S>(output: seq<S>, heard: seq<S>, p: Piece) {
    p.fate.Emitted? && p.lo <= p.hi <= |heard| && output == heard[p.lo..p.hi]
  }

  /** `at` places the outputs, in order, on the emitted pieces, all of them. */
  ghost predicate Placed<S>(heard: seq<S>, outputs: seq<seq<S>>, pieces: seq<Piece>, at: seq<nat>) {
    && |at| == |outputs|
    && (forall j :: 0 <= j < |at| ==> at[j] < |pieces| && CopyOf(outputs[j], heard, pieces[at[j]]))
    && (forall i, j :: 0 <= i < j < |at| ==> at[i] < at[j])
    && (forall i :: 0 <= i < |pieces| && pieces[i].fate.Emitted? ==> i in at)
  }

  lemma PlaceSkips<S>(heard: seq<S>, outputs: seq<seq<S>>, init: seq<Piece>, last: Piece, at: seq<nat>)
    requires Placed(heard, outputs, init, at) && !last.fate.Emitted?
    ensures Placed(heard, outputs, init + [last], at)
  {
    var pieces := init + [last];
    assert forall i :: 0 <= i < |init| ==> pieces[i] == init[i];
    assert forall j :: 0 <= j < |at| ==> pieces[at[j]] == init[at[j]];
  }

  lemma PlaceAdds<S>(heard: seq<S>, outputs: seq<seq<S>>, init: seq<Piece>, last: Piece, at: seq<nat>, output: seq<S>)
    requires Placed(heard, outputs, init, at) && CopyOf(output, heard, last)
    ensures Placed(heard, outputs + [output], init + [last], at + [|init|])
  {
    var pieces, more, all := init + [last], at + [|init|], outputs + [output];
    forall j | 0 <= j < |more| ensures more[j] < |pieces| && CopyOf(all[j], heard, pieces[more[j]]) {
      if j < |at| { assert more[j] == at[j] && all[j] == outputs[j] && pieces[at[j]] == init[at[j]]; }
    }
    forall i | 0 <= i < |pieces| && pieces[i].fate.Emitted? ensures i in more {
      if i < |init| { assert init[i] == pieces[i] && i in at; } else { assert more[|at|] == i; }
    }
  }

  lemma {:induction false} SlicesPlaced<S>(heard: seq<S>, pieces: seq<Piece>) returns (at: seq<nat>)
    requires Tiles(pieces) && End(pieces) <= |heard|
    ensures Placed(heard, Slices(heard, pieces), pieces, at)
  {
    if pieces == [] {
      at := [];
    } else {
      var init, last := pieces[..|pieces| - 1], pieces[|pieces| - 1];
      at := SlicesPlaced(heard, init);
      assert init + [last] == pieces && last.lo == End(init);
      if last.fate.Emitted? {
        PlaceAdds(heard, Slices(heard, init), init, last, at, heard[last.lo..last.hi]);
        at := at + [|init|];
      } else {
        PlaceSkips(heard, Slices(heard, init), init, last, at);
        assert Slices(heard, init) + [] == Slices(heard, init);
      }
    }
  }

  // ---- the story of a segment, read off the input alone ----

  function HeardOf<S>(inputs: seq<Input<S>>): seq<S> {
    if inputs == [] then []
    else
      var last := inputs[|inputs| - 1];
      HeardOf(inputs[..|inputs| - 1]) + if last.Chunk? then last.samples else []
  }

  predicate Loud<S(==)>(isSpeech: seq<S> -> bool, input: Input<S>) {
    input.Chunk? && input.samples != [] && isSpeech(input.samples)
  }

  /** Where in the whole input the k-th chunk begins. */
  function StartOf<S>(inputs: seq<Input<S>>, k: nat): nat
    requires k <= |inputs|
  {
    |HeardOf(inputs[..k])|
  }

  /** The samples of the speech chunks that begin at `since` or later. */
  function SpeechSince<S(==)>(isSpeech: seq<S> -> bool, inputs: seq<Input<S>>, since: nat): nat {
    if inputs == [] then 0
    else
      var init, last := inputs[..|inputs| - 1], inputs[|inputs| - 1];
      SpeechSince(isSpeech, init, since) +
        if Loud(isSpeech, last) && |HeardOf(init)| >= since then |last.samples| else 0
  }

  /** The samples after the last speech chunk. */
  function QuietTail<S(==)>(isSpeech: seq<S> -> bool, inputs: seq<Input<S>>): nat {
    if inputs == [] then 0
    else
      var last := inputs[|inputs| - 1];
      if Loud(isSpeech, last) then 0
      else QuietTail(isSpeech, inputs[..|inputs| - 1]) + if last.Chunk? then |last.samples| else 0
  }

  predicate NoSpeech<S(==)>(isSpeech: seq<S> -> bool, inputs: seq<Input<S>>, since: nat) {
    forall k :: 0 <= k < |inputs| && Loud(isSpeech, inputs[k]) ==> StartOf(inputs, k) < since
  }

  /** The k-th chunk is the first speech chunk that begins at `since` or later. */
  predicate FirstSpeechAt<S(==)>(isSpeech: seq<S> -> bool, inputs: seq<Input<S>>, since: nat, k: nat) {
    && k < |inputs| && Loud(isSpeech, inputs[k]) && since <= StartOf(inputs, k)
    && forall j :: 0 <= j < k && Loud(isSpeech, inputs[j]) ==> StartOf(inputs, j) < since
  }

  /** `onset` is where the first speech chunk since `since` begins. */
  predicate FirstSpeech<S(==)>(isSpeech: seq<S> -> bool, inputs: seq<Input<S>>, since: nat, onset: nat) {
    exists k :: 0 <= k < |inputs| && FirstSpeechAt(isSpeech, inputs, since, k) && StartOf(inputs, k) == onset
  }

  /** Where the last ended segment ended, its cut-off included. */
  function LastEnd(pieces: seq<Piece>): nat {
    if pieces == [] then 0
    else
      var last := pieces[|pieces| - 1];
      if last.story.Some? then last.lo + last.story.value.length else LastEnd(pieces[..|pieces| - 1])
  }

  /** The segment ended with the m-th input, and what its story says is so. */
  predicate EndedAt<S(==)>(isSpeech: seq<S> -> bool, inputs: seq<Input<S>>, p: Piece, m: nat) {
    0 < m <= |inputs| && p.story.Some? &&
    var s, taken := p.story.value, inputs[..m];
    && FirstSpeech(isSpeech, taken, s.since, s.onset)
    && s.speech == SpeechSince(isSpeech, taken, s.since)
    && s.quiet == QuietTail(isSpeech, taken)
    && s.flushed == inputs[m - 1].Flush?
    && p.lo + s.length == |HeardOf(taken)|
  }

  ghost predicate Ended<S>(isSpeech: seq<S> -> bool, inputs: seq<Input<S>>, p: Piece) {
    exists m :: EndedAt(isSpeech, inputs, p, m)
  }

  /** The story of every ended segment is so, and begins where the one before ended. */
  ghost predicate StoriesTrue<S>(isSpeech: seq<S> -> bool, inputs: seq<Input<S>>, pieces: seq<Piece>) {
    forall i :: 0 <= i < |pieces| && pieces[i].story.Some? ==>
      Ended(isSpeech, inputs, pieces[i]) && pieces[i].story.value.since == LastEnd(pieces[..i])
  }

  /** What a run tracks beside the detector is what the input alone says. */
  ghost predicate Told<S>(isSpeech: seq<S> -> bool, inputs: seq<Input<S>>, tr: Track<S>) {
    && tr.heard == HeardOf(inputs)
    && tr.since == LastEnd(tr.pieces)
    && tr.speech == SpeechSince(isSpeech, inputs, tr.since)
    && (tr.st.speaking ==>
          FirstSpeech(isSpeech, inputs, tr.since, tr.onset) && tr.quiet == QuietTail(isSpeech, inputs))
    && (!tr.st.speaking ==> NoSpeech(isSpeech, inputs, tr.since))
    && StoriesTrue(isSpeech, inputs, tr.pieces)
  }

  lemma OneMore<S>(inputs: seq<Input<S>>, x: Input<S>)
    ensures (inputs + [x])[..|inputs|] == inputs
    ensures forall k :: 0 <= k <= |inputs| ==> (inputs + [x])[..k] == inputs[..k]
  {
  }

  lemma EndedStays<S>(isSpeech: seq<S> -> bool, inputs: seq<Input<S>>, x: Input<S>, p: Piece)
    requires Ended(isSpeech, inputs, p)
    ensures Ended(isSpeech, inputs + [x], p)
  {
    var m :| EndedAt(isSpeech, inputs, p, m);
    OneMore(inputs, x);
    assert EndedAt(isSpeech, inputs + [x], p, m);
  }

  lemma StoriesStay<S>(isSpeech: seq<S> -> bool, inputs: seq<Input<S>>, x: Input<S>, pieces: seq<Piece>)
    requires StoriesTrue(isSpeech, inputs, pieces)
    ensures StoriesTrue(isSpeech, inputs + [x], pieces)
  {
    forall i | 0 <= i < |pieces| && pieces[i].story.Some? ensures Ended(isSpeech, inputs + [x], pieces[i]) {
      EndedStays(isSpeech, inputs, x, pieces[i]);
    }
  }

  lemma StoriesAppend<S>(isSpeech: seq<S> -> bool, inputs: seq<Input<S>>, pieces: seq<Piece>, p: Piece)
    requires StoriesTrue(isSpeech, inputs, pieces)
    requires p.story.Some? ==> Ended(isSpeech, inputs, p) && p.story.value.since == LastEnd(pieces)
    ensures StoriesTrue(isSpeech, inputs, pieces + [p])
    ensures LastEnd(pieces + [p]) == if p.story.Some? then p.lo + p.story.value.length else LastEnd(pieces)
  {
    var all := pieces + [p];
    assert all[..|pieces|] == pieces;
    forall i | 0 <= i < |all| && all[i].story.Some?
      ensures Ended(isSpeech, inputs, all[i]) && all[i].story.value.since == LastEnd(all[..i])
    {
      if i < |pieces| { assert all[i] == pieces[i] && all[..i] == pieces[..i]; }
    }
  }

  lemma FirstStays<S>(isSpeech: seq<S> -> bool, inputs: seq<Input<S>>, x: Input<S>, since: nat, onset: nat)
    requires FirstSpeech(isSpeech, inputs, since, onset)
    ensures FirstSpeech(isSpeech, inputs + [x], since, onset)
  {
    var k :| 0 <= k < |inputs| && FirstSpeechAt(isSpeech, inputs, since, k) && StartOf(inputs, k) == onset;
    OneMore(inputs, x);
    assert FirstSpeechAt(isSpeech, inputs + [x], since, k);
  }

  lemma FirstNow<S>(isSpeech: seq<S> -> bool, inputs: seq<Input<S>>, x: Input<S>, since: nat)
    requires NoSpeech(isSpeech, inputs, since) && Loud(isSpeech, x) && since <= |HeardOf(inputs)|
    ensures FirstSpeech(isSpeech, inputs + [x], since, |HeardOf(inputs)|)
  {
    OneMore(inputs, x);
    var all, k := inputs + [x], |inputs|;
    forall j | 0 <= j < k && Loud(isSpeech, all[j]) ensures StartOf(all, j) < since {
      assert all[j] == inputs[j] && StartOf(all, j) == StartOf(inputs, j);
    }
    assert FirstSpeechAt(isSpeech, all, since, k);
  }

  lemma SilenceStays<S>(isSpeech: seq<S> -> bool, inputs: seq<Input<S>>, x: Input<S>, since: nat)
    requires NoSpeech(isSpeech, inputs, since) && !Loud(isSpeech, x)
    ensures NoSpeech(isSpeech, inputs + [x], since)
  {
    OneMore(inputs, x);
    var all := inputs + [x];
    forall k | 0 <= k < |all| && Loud(isSpeech, all[k]) ensures StartOf(all, k) < since {
      assert all[k] == inputs[k] && StartOf(all, k) == StartOf(inputs, k);
    }
  }

  lemma {:induction false} StartsEarlier<S>(inputs: seq<Input<S>>, k: nat)
    requires k < |inputs| && inputs[k].Chunk? && inputs[k].samples != []
    ensures StartOf(inputs, k) < |HeardOf(inputs)|
  {
    var init := inputs[..|inputs| - 1];
    if k < |init| {
      StartsEarlier(init, k);
      assert init[..k] == inputs[..k];
    }
  }

  /** Behind everything heard no speech has begun. */
  lemma {:induction false} NothingAhead<S>(isSpeech: seq<S> -> bool, inputs: seq<Input<S>>)
    ensures NoSpeech(isSpeech, inputs, |HeardOf(inputs)|)
  {
    forall k | 0 <= k < |inputs| && Loud(isSpeech, inputs[k]) ensures StartOf(inputs, k) < |HeardOf(inputs)| {
      StartsEarlier(inputs, k);
    }
  }

  lemma {:induction false} NoSpeechCounts<S>(isSpeech: seq<S> -> bool, inputs: seq<Input<S>>, since: nat)
    requires NoSpeech(isSpeech, inputs, since)
    ensures SpeechSince(isSpeech, inputs, since) == 0
  {
    if inputs != [] {
      var init, k := inputs[..|inputs| - 1], |inputs| - 1;
      forall j | 0 <= j < |init| && Loud(isSpeech, init[j]) ensures StartOf(init, j) < since {
        assert init[j] == inputs[j] && init[..j] == inputs[..j];
        assert StartOf(inputs, j) < since;
      }
      NoSpeechCounts(isSpeech, init, since);
      if Loud(isSpeech, inputs[k]) { assert StartOf(inputs, k) < since; }
    }
  }

  /** An input that changes nothing: an empty chunk, or a flush between segments. */
  lemma IdleTold<S>(isSpeech: seq<S> -> bool, inputs: seq<Input<S>>, x: Input<S>, tr: Track<S>)
    requires Told(isSpeech, inputs, tr) && (x.Chunk? ==> x.samples == [])
    ensures Told(isSpeech, inputs + [x], tr)
  {
    OneMore(inputs, x);
    StoriesStay(isSpeech, inputs, x, tr.pieces);
    if tr.st.speaking {
      FirstStays(isSpeech, inputs, x, tr.since, tr.onset);
    } else {
      SilenceStays(isSpeech, inputs, x, tr.since);
    }
  }

  lemma LoudTold<S>(cfg: Config, isSpeech: seq<S> -> bool, inputs: seq<Input<S>>, x: Input<S>, tr: Track<S>)
    requires Told(isSpeech, inputs, tr) && Loud(isSpeech, x) && tr.since <= |tr.heard|
    ensures Told(isSpeech, inputs + [x], Hear(cfg, tr, x.samples, true))
  {
    OneMore(inputs, x);
    StoriesStay(isSpeech, inputs, x, tr.pieces);
    if tr.st.speaking {
      FirstStays(isSpeech, inputs, x, tr.since, tr.onset);
    } else {
      FirstNow(isSpeech, inputs, x, tr.since);
    }
  }

  lemma QuietTold<S>(cfg: Config, isSpeech: seq<S> -> bool, inputs: seq<Input<S>>, x: Input<S>, tr: Track<S>)
    requires Told(isSpeech, inputs, tr) && x.Chunk? && x.samples != [] && !isSpeech(x.samples)
    ensures Told(isSpeech, inputs + [x], Hear(cfg, tr, x.samples, false))
  {
    OneMore(inputs, x);
    StoriesStay(isSpeech, inputs, x, tr.pieces);
    if tr.st.speaking {
      FirstStays(isSpeech, inputs, x, tr.since, tr.onset);
    } else {
      SilenceStays(isSpeech, inputs, x, tr.since);
      var r := Hear(cfg, tr, x.samples, false);
      if r.pieces != tr.pieces {
        StoriesAppend(isSpeech, inputs + [x], tr.pieces, r.pieces[|tr.pieces|]);
      }
    }
  }

  lemma CloseTold<S>(cfg: Config, isSpeech: seq<S> -> bool, inputs: seq<Input<S>>, tr: Track<S>)
    requires inputs != [] && Told(isSpeech, inputs, tr) && tr.st.speaking && End(tr.pieces) <= |tr.heard|
    ensures Told(isSpeech, inputs, Close(cfg, tr, inputs[|inputs| - 1].Flush?))
  {
    var flushed := inputs[|inputs| - 1].Flush?;
    var segment := Segment(cfg, tr, flushed);
    assert inputs[..|inputs|] == inputs;
    assert EndedAt(isSpeech, inputs, segment, |inputs|);
    StoriesAppend(isSpeech, inputs, tr.pieces, segment);
    RemnantTold(isSpeech, inputs, tr.pieces + [segment], segment.hi, |tr.heard|);
    NothingAhead(isSpeech, inputs);
    NoSpeechCounts(isSpeech, inputs, |tr.heard|);
  }

  lemma RemnantTold<S>(isSpeech: seq<S> -> bool, inputs: seq<Input<S>>, pieces: seq<Piece>, lo: nat, hi: nat)
    requires StoriesTrue(isSpeech, inputs, pieces)
    ensures StoriesTrue(isSpeech, inputs, pieces + Remnant(lo, hi))
    ensures LastEnd(pieces + Remnant(lo, hi)) == LastEnd(pieces)
  {
    if lo < hi {
      StoriesAppend(isSpeech, inputs, pieces, Piece(CutOff, lo, hi, None));
    } else {
      assert pieces + [] == pieces;
    }
  }

  /** Everything a run tracks follows the input alone. */
  lemma {:induction false} RunTold<S>(cfg: Config, isSpeech: seq<S> -> bool, inputs: seq<Input<S>>)
    ensures Told(isSpeech, inputs, Run(cfg, isSpeech, inputs))
  {
    if inputs != [] {
      var init, x := inputs[..|inputs| - 1], inputs[|inputs| - 1];
      assert init + [x] == inputs;
      RunTold(cfg, isSpeech, init);
      RunAccounts(cfg, isSpeech, init);
      NextTold(cfg, isSpeech, init, x, Run(cfg, isSpeech, init));
    }
  }

  lemma NextTold<S>(cfg: Config, isSpeech: seq<S> -> bool, inputs: seq<Input<S>>, x: Input<S>, tr: Track<S>)
    requires Told(isSpeech, inputs, tr) && Accounted(cfg, tr)
    ensures Told(isSpeech, inputs + [x], Next(cfg, isSpeech, tr, x))
  {
    if x.Flush? || x.samples == [] {
      IdleTold(isSpeech, inputs, x, tr);
      if x.Flush? && tr.st.speaking { CloseTold(cfg, isSpeech, inputs + [x], tr); }
    } else {
      var mid := Hear(cfg, tr, x.samples, isSpeech(x.samples));
      if isSpeech(x.samples) {
        LoudTold(cfg, isSpeech, inputs, x, tr);
      } else {
        QuietTold(cfg, isSpeech, inputs, x, tr);
      }
      if Ends(cfg, mid.st) {
        HearAccounts(cfg, tr, x.samples, isSpeech(x.samples));
        CloseTold(cfg, isSpeech, inputs + [x], mid);
      }
    }
  }

  /** The utterances handed out are contiguous slices of the whole input, in order and
      apart; each is within the length cap, carries at least the minimum of speech, and
      starts exactly the pre-roll, or all that was heard since the previous segment,
      before the first speech chunk since then; all told from the input alone. */
  lemma UtterancesAreSlices<S>(cfg: Config, isSpeech: seq<S> -> bool, inputs: seq<Input<S>>)
    returns (at: seq<nat>)
    ensures var tr := Run(cfg, isSpeech, inputs);
      && Placed(HeardOf(inputs), tr.outputs, tr.pieces, at)
      && (forall i, j :: 0 <= i < j < |at| ==> tr.pieces[at[i]].hi <= tr.pieces[at[j]].lo)
      && (forall j :: 0 <= j < |at| ==>
            Fits(cfg, |tr.outputs[j]|, cfg.maxUtteranceMs) && SegmentOk(cfg, tr.pieces[at[j]]))
      && StoriesTrue(isSpeech, inputs, tr.pieces)
  {
    RunAccounts(cfg, isSpeech, inputs);
    RunTold(cfg, isSpeech, inputs);
    var tr := Run(cfg, isSpeech, inputs);
    TilesAscend(tr.pieces);
    at := SlicesPlaced(tr.heard, tr.pieces);
  }

  /** In milliseconds of the configuration: a speaking detector has drained its pre-roll
      and is below the longest utterance and the silence limit; a quiet one has met no
      speech since the last segment ended, and holds exactly the last samples since then,
      up to the pre-roll. */
  ghost predicate Bounded<S>(cfg: Config, isSpeech: seq<S> -> bool, inputs: seq<Input<S>>, tr: Track<S>) {
    var since, held := LastEnd(tr.pieces), tr.st.preroll;
    if tr.st.speaking then
      && held == [] && !Fills(cfg, |tr.st.utterance|, cfg.maxUtteranceMs)
      && !Fills(cfg, QuietTail(isSpeech, inputs), cfg.silenceSubmitMs)
    else
      && NoSpeech(isSpeech, inputs, since) && tr.st.utterance == []
      && since + |held| <= |HeardOf(inputs)| && held == HeardOf(inputs)[|HeardOf(inputs)| - |held|..]
      && Fits(cfg, |held|, cfg.prerollMs)
      && (since + |held| < |HeardOf(inputs)| ==> Fills(cfg, |held|, cfg.prerollMs))
  }

  lemma TrackBounds<S>(cfg: Config, isSpeech: seq<S> -> bool, inputs: seq<Input<S>>, tr: Track<S>)
    requires Accounted(cfg, tr) && Told(isSpeech, inputs, tr) && !Ends(cfg, tr.st)
    ensures Bounded(cfg, isSpeech, inputs, tr)
  {
    if tr.st.speaking {
      SilenceCounts(cfg, tr.quiet);
      InSamples(cfg, cfg.maxUtteranceMs, |tr.st.utterance|);
      InSamples(cfg, cfg.silenceSubmitMs, tr.quiet);
    } else {
      PrerollLength(cfg, tr);
      InSamples(cfg, cfg.prerollMs, |tr.st.preroll|);
    }
  }

  /** Between calls the detector stays within its bounds, on every run. */
  lemma StateBounds<S>(cfg: Config, isSpeech: seq<S> -> bool, inputs: seq<Input<S>>)
    ensures Bounded(cfg, isSpeech, inputs, Run(cfg, isSpeech, inputs))
  {
    RunAccounts(cfg, isSpeech, inputs);
    RunTold(cfg, isSpeech, inputs);
    TrackBounds(cfg, isSpeech, inputs, Run(cfg, isSpeech, inputs));
  }
}
