/** The Content-Length framing of the plans extension: an incremental decoder that
    reassigns its buffer inside a data handler, and the encoder of replies
    (Language Server Protocol, Base Protocol, "Header Part"). */
module FrameDecoder {
  import opened Common
  import opened Text

  newtype Byte = b: int | 0 <= b < 256

  const SEPARATOR: seq<Byte> := [13, 10, 13, 10]
  /** "content-length:" */
  const LABEL: seq<Byte> := [99, 111, 110, 116, 101, 110, 116, 45, 108, 101, 110, 103, 116, 104, 58]
  /** "Content-Length: " */
  const PREAMBLE: seq<Byte> := [67, 111, 110, 116, 101, 110, 116, 45, 76, 101, 110, 103, 116, 104, 58, 32]

  // ---- the header pattern: name, any white space, at least one digit ----

  /** A byte as ASCII decoding shows it, in lower case: the top bit is dropped. */
  function Fold(b: Byte): Byte {
    var a := b % 128;
    if 65 <= a <= 90 then a + 32 else a
  }

  predicate IsSpace(b: Byte) { 9 <= b % 128 <= 13 || b % 128 == 32 }

  predicate IsDigitByte(b: Byte) { 48 <= b % 128 <= 57 }

  predicate LabelAt(h: seq<Byte>, i: nat) {
    i + |LABEL| <= |h| && forall k :: 0 <= k < |LABEL| ==> Fold(h[i + k]) == LABEL[k]
  }

  function SkipSpace(h: seq<Byte>, i: nat): (j: nat)
    requires i <= |h|
    ensures i <= j <= |h|
    decreases |h| - i
  {
    if i < |h| && IsSpace(h[i]) then SkipSpace(h, i + 1) else i
  }

  /** The number the digits from `i` on spell, after those already read. */
  function ReadNumber(h: seq<Byte>, i: nat, sofar: nat): nat
    requires i <= |h|
    decreases |h| - i
  {
    if i < |h| && IsDigitByte(h[i]) then ReadNumber(h, i + 1, 10 * sofar + ((h[i] % 128) as int - 48)) else sofar
  }

  predicate MatchAt(h: seq<Byte>, i: nat) {
    LabelAt(h, i) &&
    var j := SkipSpace(h, i + |LABEL|);
    j < |h| && IsDigitByte(h[j])
  }

  /** The length named by the first match at or after `i`. */
  function LengthFrom(h: seq<Byte>, i: nat): Option<nat>
    decreases |h| - i
  {
    if |h| <= i then None
    else if MatchAt(h, i) then Some(ReadNumber(h, SkipSpace(h, i + |LABEL|), 0))
    else LengthFrom(h, i + 1)
  }

  function ContentLength(header: seq<Byte>): Option<nat> { LengthFrom(header, 0) }

  // ---- decoding, for any rule that says what the front of a buffer is ----

  /** What the front of the buffer is: not yet a whole frame, a header that names no
      length, or a frame with its body at `start..end`. */
  datatype Front = Partial | Skipped(end: nat) | Framed(start: nat, end: nat)

  ghost predicate Progresses(f: seq<Byte> -> Front) {
    forall buf :: f(buf).Partial? ||
      (0 < f(buf).end <= |buf| && (f(buf).Framed? ==> f(buf).start <= f(buf).end))
  }

  type Framing = f: seq<Byte> -> Front | Progresses(f) ghost witness (_: seq<Byte>) => Partial

  /** More bytes never change a front that is whole. */
  ghost predicate StableOn(f: Framing, a: seq<Byte>, b: seq<Byte>) {
    !f(a).Partial? ==> f(a + b) == f(a)
  }

  ghost predicate Stable(f: Framing) {
    forall a, b :: StableOn(f, a, b)
  }

  datatype Decoded = Decoded(bodies: seq<seq<Byte>>, rest: seq<Byte>)

  /** Everything a buffer yields: the bodies in order, and the bytes left waiting. */
  ghost function Decode(front: Framing, buf: seq<Byte>): Decoded
    decreases |buf|
  {
    match front(buf)
    case Partial => Decoded([], buf)
    case Skipped(end) => Decode(front, buf[end..])
    case Framed(start, end) =>
      var d := Decode(front, buf[end..]);
      Decoded([buf[start..end]] + d.bodies, d.rest)
  }

  /** The decoder of the plans extension, for the framing it is given. */
  class StdioDecoder {
    const front: Framing
    var buf: seq<Byte>

    constructor (front: Framing)
      ensures this.front == front && buf == []
    {
      this.front, buf := front, [];
    }

    /** The data handler: returns the bodies it passes on, in order. */
    method OnData(chunk: seq<Byte>) returns (bodies: seq<seq<Byte>>)
      modifies this`buf
      ensures Decoded(bodies, buf) == Decode(front, old(buf) + chunk)
    {
      buf := buf + chunk;
      bodies := [];
      ghost var whole := Decode(front, buf);
      while true
        invariant whole == Decoded(bodies + Decode(front, buf).bodies, Decode(front, buf).rest)
        decreases |buf|
      {
        match front(buf) {
          case Partial => break;
          case Skipped(end) => buf := buf[end..];
          case Framed(start, end) =>
            var body := buf[start..end];
            ghost var later := Decode(front, buf[end..]).bodies;
            assert bodies + ([body] + later) == bodies + [body] + later;
            buf := buf[end..];
            bodies := bodies + [body];
        }
      }
      assert bodies + [] == bodies;
    }
  }

  /** What one more piece of input adds to what was decoded before. */
  ghost function Resume(front: Framing, d: Decoded, b: seq<Byte>): Decoded {
    var e := Decode(front, d.rest + b);
    Decoded(d.bodies + e.bodies, e.rest)
  }

  lemma ResumeFramed(front: Framing, body: seq<Byte>, d: Decoded, b: seq<Byte>)
    ensures Resume(front, Decoded([body] + d.bodies, d.rest), b) ==
      Decoded([body] + Resume(front, d, b).bodies, Resume(front, d, b).rest)
  {
    var e := Decode(front, d.rest + b);
    assert [body] + d.bodies + e.bodies == [body] + (d.bodies + e.bodies);
  }

  /** Decoding in two parts, carrying the rest over, is decoding at once. */
  lemma {:induction false} DecodeSplit(front: Framing, a: seq<Byte>, b: seq<Byte>)
    requires Stable(front)
    ensures Decode(front, a + b) == Resume(front, Decode(front, a), b)
    decreases |a|
  {
    assert StableOn(front, a, b);
    var f := front(a);
    if f.Partial? {
      assert Resume(front, Decoded([], a), b).bodies == Decode(front, a + b).bodies;
    } else {
      var d := Decode(front, a[f.end..]);
      assert (a + b)[f.end..] == a[f.end..] + b;
      DecodeSplit(front, a[f.end..], b);
      if f.Framed? {
        assert (a + b)[f.start..f.end] == a[f.start..f.end];
        ResumeFramed(front, a[f.start..f.end], d, b);
      }
    }
  }

  function Concat<T>(parts: seq<seq<T>>): seq<T> {
    if parts == [] then [] else parts[0] + Concat(parts[1..])
  }

  /** The handler called on each chunk in turn, starting from the buffer `rest`. */
  ghost function FeedAll(front: Framing, rest: seq<Byte>, chunks: seq<seq<Byte>>): Decoded
    decreases |chunks|
  {
    if chunks == [] then Decoded([], rest)
    else
      var first := Decode(front, rest + chunks[0]);
      var later := FeedAll(front, first.rest, chunks[1..]);
      Decoded(first.bodies + later.bodies, later.rest)
  }

  lemma {:induction false} RestIsSettled(front: Framing, buf: seq<Byte>)
    ensures Decode(front, Decode(front, buf).rest) == Decoded([], Decode(front, buf).rest)
    decreases |buf|
  {
    match front(buf)
    case Partial =>
    case Skipped(end) => RestIsSettled(front, buf[end..]);
    case Framed(_, end) => RestIsSettled(front, buf[end..]);
  }

  lemma {:induction false} ChunksFromRest(front: Framing, rest: seq<Byte>, chunks: seq<seq<Byte>>)
    requires Stable(front) && Decode(front, rest) == Decoded([], rest)
    ensures FeedAll(front, rest, chunks) == Decode(front, rest + Concat(chunks))
    decreases |chunks|
  {
    if chunks == [] {
      assert rest + Concat(chunks) == rest;
    } else {
      var start, more := rest + chunks[0], Concat(chunks[1..]);
      RestIsSettled(front, start);
      ChunksFromRest(front, Decode(front, start).rest, chunks[1..]);
      DecodeSplit(front, start, more);
      ConcatFirst(rest, chunks);
      assert FeedAll(front, rest, chunks) == Resume(front, Decode(front, start), more);
    }
  }

  lemma ConcatFirst<T>(rest: seq<T>, chunks: seq<seq<T>>)
    requires chunks != []
    ensures rest + Concat(chunks) == rest + chunks[0] + Concat(chunks[1..])
  {
  }

  /** However a stream is cut into chunks, the bodies handled and the bytes left in the
      buffer are those of the whole stream in one piece. */
  lemma ChunkingIrrelevant(front: Framing, chunks: seq<seq<Byte>>)
    requires Stable(front)
    ensures FeedAll(front, [], chunks) == Decode(front, Concat(chunks))
  {
    ChunksFromRest(front, [], chunks);
    assert [] + Concat(chunks) == Concat(chunks);
  }

  // ---- the protocol's own framing ----

  function FrontOf(buf: seq<Byte>): (f: Front)
    ensures f.Partial? ||
      (0 < f.end <= |buf| && (f.Framed? ==> f.start <= f.end))
  {
    var sep := IndexOf(buf, SEPARATOR);
    if sep == -1 then Partial
    else
      match ContentLength(buf[..sep])
      case None => Skipped(sep + 4)
      case Some(len) => if |buf| < sep + 4 + len then Partial else Framed(sep + 4, sep + 4 + len)
  }

  ghost const FRAMING: Framing := FrontOf

  lemma FrontStays(a: seq<Byte>, b: seq<Byte>)
    requires !FrontOf(a).Partial?
    ensures FrontOf(a + b) == FrontOf(a)
  {
    var sep := IndexOf(a, SEPARATOR);
    IndexOfStays(a, b, SEPARATOR);
    assert (a + b)[..sep] == a[..sep];
  }

  lemma FramingStable()
    ensures Stable(FRAMING)
  {
    forall a: seq<Byte>, b: seq<Byte> ensures StableOn(FRAMING, a, b) {
      if !FrontOf(a).Partial? { FrontStays(a, b); }
    }
  }

  // ---- the encoder ----

  function AsBytes(s: string): (b: seq<Byte>)
    requires forall i :: 0 <= i < |s| ==> IsDigit(s[i])
    ensures |b| == |s|
  {
    if s == "" then [] else
      var c := s[0];
      assert IsDigit(c);
      [c as Byte] + AsBytes(s[1..])
  }

  function Header(length: nat): seq<Byte> { PREAMBLE + AsBytes(Decimal(length)) }

  /** The bytes `reply` writes for one payload. */
  function Frame(body: seq<Byte>): seq<Byte> { Header(|body|) + SEPARATOR + body }

  function Frames(frame: seq<Byte> -> seq<Byte>, bodies: seq<seq<Byte>>): seq<Byte> {
    if bodies == [] then [] else frame(bodies[0]) + Frames(frame, bodies[1..])
  }

  /** Whatever follows it, the framing sees the frame of a body whole. */
  ghost predicate Encodes(front: Framing, frame: seq<Byte> -> seq<Byte>, body: seq<Byte>, more: seq<Byte>) {
    var buf := frame(body) + more;
    front(buf).Framed? && front(buf).end == |frame(body)| && buf[front(buf).start..|frame(body)|] == body
  }

  lemma DecodeFrame(front: Framing, frame: seq<Byte> -> seq<Byte>, body: seq<Byte>, more: seq<Byte>)
    requires Encodes(front, frame, body, more)
    ensures Decode(front, frame(body) + more) ==
      Decoded([body] + Decode(front, more).bodies, Decode(front, more).rest)
  {
    assert (frame(body) + more)[|frame(body)|..] == more;
  }

  lemma {:induction false} RoundTripThen(
      front: Framing, frame: seq<Byte> -> seq<Byte>, bodies: seq<seq<Byte>>, more: seq<Byte>)
    requires forall b, m :: Encodes(front, frame, b, m)
    ensures Decode(front, Frames(frame, bodies) + more) ==
      Decoded(bodies + Decode(front, more).bodies, Decode(front, more).rest)
    decreases |bodies|
  {
    if bodies == [] {
      assert Frames(frame, bodies) + more == more;
      assert bodies + Decode(front, more).bodies == Decode(front, more).bodies;
    } else {
      var later := Frames(frame, bodies[1..]) + more;
      assert Encodes(front, frame, bodies[0], later);
      DecodeFrame(front, frame, bodies[0], later);
      assert Frames(frame, bodies) + more == frame(bodies[0]) + later;
      RoundTripThen(front, frame, bodies[1..], more);
      ConsAppend(bodies, Decode(front, more).bodies);
    }
  }

  lemma ConsAppend<T>(s: seq<T>, t: seq<T>)
    requires s != []
    ensures s + t == [s[0]] + (s[1..] + t)
  {
  }

  /** Reading digits left to right, after `sofar`. */
  ghost function Shifted(sofar: nat, s: string): nat
    requires forall k :: 0 <= k < |s| ==> IsDigit(s[k])
    decreases |s|
  {
    if s == "" then sofar
    else
      assert IsDigit(s[0]);
      Shifted(10 * sofar + (s[0] as int - '0' as int), s[1..])
  }

  lemma {:induction false} ReadDigits(h: seq<Byte>, i: nat, s: string, tail: seq<Byte>, sofar: nat)
    requires forall k :: 0 <= k < |s| ==> IsDigit(s[k])
    requires i <= |h| && h[i..] == AsBytes(s) + tail && (tail != [] ==> !IsDigitByte(tail[0]))
    ensures ReadNumber(h, i, sofar) == Shifted(sofar, s)
    decreases |s|
  {
    if s == "" {
      assert AsBytes(s) + tail == tail;
      if tail != [] { assert h[i] == h[i..][0] == tail[0]; }
    } else {
      assert IsDigit(s[0]);
      assert h[i] == h[i..][0] == s[0] as Byte;
      assert h[i + 1..] == h[i..][1..] == AsBytes(s[1..]) + tail;
      ReadDigits(h, i + 1, s[1..], tail, 10 * sofar + (s[0] as int - '0' as int));
    }
  }

  lemma {:induction false} SkipsAll(h: seq<Byte>, i: nat, n: nat)
    requires i + n < |h| && (forall k :: i <= k < i + n ==> IsSpace(h[k])) && !IsSpace(h[i + n])
    ensures SkipSpace(h, i) == i + n
    decreases n
  {
    if n > 0 { SkipsAll(h, i + 1, n - 1); }
  }

  lemma {:induction false} ShiftedLast(sofar: nat, s: string, c: char)
    requires IsDigit(c) && forall k :: 0 <= k < |s| ==> IsDigit(s[k])
    ensures Shifted(sofar, s + [c]) == 10 * Shifted(sofar, s) + (c as int - '0' as int)
    decreases |s|
  {
    if s == "" {
      assert s + [c] == [c] && [c][1..] == "";
    } else {
      assert IsDigit(s[0]);
      assert (s + [c])[1..] == s[1..] + [c];
      ShiftedLast(10 * sofar + (s[0] as int - '0' as int), s[1..], c);
    }
  }

  lemma {:induction false} ShiftedParses(s: string)
    requires forall k :: 0 <= k < |s| ==> IsDigit(s[k])
    ensures Shifted(0, s) == ParseDecimal(s)
  {
    if s != "" {
      var init, last := s[..|s| - 1], s[|s| - 1];
      ShiftedParses(init);
      ShiftedLast(0, init, last);
      assert init + [last] == s;
    }
  }

  /** The character a byte decodes to as ASCII. */
  function Ascii(b: Byte): char { (b as int % 128) as char }

  predicate WhiteByte(b: Byte) {
    Ascii(b) == ' ' || Ascii(b) == '\t' || Ascii(b) == '\n' || Ascii(b) == '\r' || b % 128 == 11 || b % 128 == 12
  }

  /** The header decoded, in small letters, names the length at `i`: the name, white space
      up to `j`, and a digit there. */
  predicate NamesLengthAt(h: seq<Byte>, i: nat, j: nat) {
    var name := "content-length:";
    && i + |name| <= j < |h|
    && (forall k :: 0 <= k < |name| ==>
          Ascii(h[i + k]) == name[k] || ('A' <= Ascii(h[i + k]) <= 'Z' && 'a' + (Ascii(h[i + k]) - 'A') == name[k]))
    && (forall k :: i + |name| <= k < j ==> WhiteByte(h[k]))
    && '0' <= Ascii(h[j]) <= '9'
  }

  lemma LabelIs(h: seq<Byte>, i: nat)
    ensures LabelAt(h, i) <==> i + 15 <= |h| && forall k :: 0 <= k < 15 ==>
      Ascii(h[i + k]) == "content-length:"[k] ||
      ('A' <= Ascii(h[i + k]) <= 'Z' && 'a' + (Ascii(h[i + k]) - 'A') == "content-length:"[k])
  {
    LabelChars();
    if i + 15 <= |h| {
      forall k | 0 <= k < 15
        ensures Fold(h[i + k]) == LABEL[k] <==>
          Ascii(h[i + k]) == "content-length:"[k] ||
          ('A' <= Ascii(h[i + k]) <= 'Z' && 'a' + (Ascii(h[i + k]) - 'A') == "content-length:"[k])
      {
        FoldIs(h[i + k], "content-length:"[k]);
      }
    }
  }

  lemma LabelChars()
    ensures forall k :: 0 <= k < 15 ==>
      LABEL[k] as int == "content-length:"[k] as int && !('A' <= "content-length:"[k] <= 'Z')
  {
  }

  lemma FoldIs(b: Byte, c: char)
    requires !('A' <= c <= 'Z') && c as int < 128
    ensures Fold(b) as int == c as int <==>
      Ascii(b) == c || ('A' <= Ascii(b) <= 'Z' && 'a' + (Ascii(b) - 'A') == c)
  {
  }

  lemma {:induction false} SkipsTo(h: seq<Byte>, i: nat)
    requires i <= |h|
    ensures forall k :: i <= k < SkipSpace(h, i) ==> WhiteByte(h[k])
    ensures SkipSpace(h, i) < |h| ==> !WhiteByte(h[SkipSpace(h, i)])
    decreases |h| - i
  {
    if i < |h| && IsSpace(h[i]) { SkipsTo(h, i + 1); }
  }

  /** Where the pattern matches, read off the decoded header. */
  lemma MatchIff(h: seq<Byte>, i: nat)
    ensures MatchAt(h, i) <==> exists j: nat :: NamesLengthAt(h, i, j)
  {
    LabelIs(h, i);
    if LabelAt(h, i) {
      SkipsTo(h, i + 15);
      var j := SkipSpace(h, i + 15);
      if j < |h| && IsDigitByte(h[j]) { assert NamesLengthAt(h, i, j); }
    }
    if j: nat :| NamesLengthAt(h, i, j) {
      assert forall k :: i + 15 <= k < j ==> IsSpace(h[k]);
      assert !IsSpace(h[j]);
      SkipsAll(h, i + 15, j - (i + 15));
    }
  }

  /** The name in any case, any white space, a number, and anything but a digit after it. */
  lemma HeaderVariants(name: seq<Byte>, spaces: seq<Byte>, length: nat, tail: seq<Byte>)
    requires |name| == |LABEL| && forall k :: 0 <= k < |LABEL| ==> Fold(name[k]) == LABEL[k]
    requires forall k :: 0 <= k < |spaces| ==> WhiteByte(spaces[k])
    requires tail != [] ==> !('0' <= Ascii(tail[0]) <= '9')
    ensures ContentLength(name + spaces + AsBytes(Decimal(length)) + tail) == Some(length)
  {
    var digits := Decimal(length);
    var front, value := name + spaces, AsBytes(digits) + tail;
    assert forall k :: 0 <= k < |spaces| ==> IsSpace(spaces[k]);
    var h := front + value;
    assert h == name + spaces + AsBytes(digits) + tail;
    DigitBytes(digits, 0);
    assert IsDigit(digits[0]) && h[|front|] == AsBytes(digits)[0];
    NameThenSpaces(name, spaces, h);
    assert h[|front|..] == value;
    ReadDigits(h, |front|, digits, tail, 0);
    ShiftedParses(digits);
    DecimalRoundTrip(length);
  }

  lemma NameThenSpaces(name: seq<Byte>, spaces: seq<Byte>, h: seq<Byte>)
    requires |name| == |LABEL| && forall k :: 0 <= k < |LABEL| ==> Fold(name[k]) == LABEL[k]
    requires forall k :: 0 <= k < |spaces| ==> IsSpace(spaces[k])
    requires name + spaces < h && IsDigitByte(h[|name| + |spaces|])
    ensures MatchAt(h, 0) && SkipSpace(h, |LABEL|) == |name| + |spaces|
  {
    assert forall k :: 0 <= k < |name| ==> h[k] == name[k];
    assert forall k :: 0 <= k < |LABEL| ==> h[0 + k] == name[k];
    forall k | |name| <= k < |name| + |spaces| ensures IsSpace(h[k]) {
      assert h[k] == spaces[k - |name|];
    }
    SkipsAll(h, |name|, |spaces|);
  }

  lemma HeaderNamesLength(length: nat)
    ensures ContentLength(Header(length)) == Some(length)
  {
    HeaderVariants(PREAMBLE[..15], [32], length, []);
    assert PREAMBLE[..15] + [32] + AsBytes(Decimal(length)) + [] == Header(length);
  }

  /** `j` is where the pattern first matches at or after `i`, if anywhere: then the header
      names the number read there, and otherwise no length. */
  lemma {:induction false} LeftmostMatchCounts(h: seq<Byte>, i: nat) returns (j: nat)
    requires i <= |h|
    ensures i <= j <= |h| && forall k :: i <= k < j ==> !MatchAt(h, k)
    ensures LengthFrom(h, i).None? <==> j == |h|
    ensures j < |h| ==> MatchAt(h, j) && LengthFrom(h, i) == Some(ReadNumber(h, SkipSpace(h, j + |LABEL|), 0))
    decreases |h| - i
  {
    if i == |h| || MatchAt(h, i) { j := i; } else { j := LeftmostMatchCounts(h, i + 1); }
  }

  /** A header that names no length is dropped with its separator, and decoding goes on
      right behind it. */
  lemma BadHeaderSkipped(header: seq<Byte>, more: seq<Byte>)
    requires IndexOf(header + SEPARATOR + more, SEPARATOR) == |header|
    requires ContentLength(header).None?
    ensures Decode(FRAMING, header + SEPARATOR + more) == Decode(FRAMING, more)
  {
    var buf := header + SEPARATOR + more;
    assert buf[..|header|] == header;
    assert FRAMING(buf) == Skipped(|header| + 4);
    assert buf[|header| + 4..] == more;
  }

  /** A header holds no carriage return, so its frame's separator is the first. */
  lemma FrameSeparator(body: seq<Byte>, more: seq<Byte>)
    ensures IndexOf(Frame(body) + more, SEPARATOR) == |Header(|body|)|
  {
    var h, digits := Header(|body|), Decimal(|body|);
    var buf := Frame(body) + more;
    assert buf == h + (SEPARATOR + body + more);
    forall k | 0 <= k < |h| ensures h[k] != 13 {
      if k < 16 { assert h[k] == PREAMBLE[k]; }
      else { assert h[k] == AsBytes(digits)[k - 16]; DigitBytes(digits, k - 16); }
    }
    forall j | 0 <= j < |h| ensures !OccursAt(buf, SEPARATOR, j) {
      assert buf[j + 0] == h[j] && SEPARATOR[0] == 13;
    }
    assert forall k :: 0 <= k < 4 ==> buf[|h| + k] == SEPARATOR[k];
    assert OccursAt(buf, SEPARATOR, |h|);
  }

  lemma {:induction false} DigitBytes(s: string, k: nat)
    requires k < |s| && forall i :: 0 <= i < |s| ==> IsDigit(s[i])
    ensures AsBytes(s)[k] as int == s[k] as int
  {
    if k > 0 { DigitBytes(s[1..], k - 1); }
  }

  lemma FrameFront(body: seq<Byte>, more: seq<Byte>)
    ensures FrontOf(Frame(body) + more) == Framed(|Header(|body|)| + 4, |Frame(body)|)
  {
    FrameSeparator(body, more);
    assert (Frame(body) + more)[..|Header(|body|)|] == Header(|body|);
    HeaderNamesLength(|body|);
  }

  lemma FrameSlice(body: seq<Byte>, more: seq<Byte>)
    ensures (Frame(body) + more)[|Header(|body|)| + 4..|Frame(body)|] == body
  {
  }

  lemma ReplyEncodes(body: seq<Byte>, more: seq<Byte>)
    ensures Encodes(FRAMING, Frame, body, more)
  {
    FrameFront(body, more);
    FrameSlice(body, more);
  }

  lemma FramesDecode(bodies: seq<seq<Byte>>)
    ensures Decode(FRAMING, Frames(Frame, bodies)) == Decoded(bodies, [])
  {
    forall b: seq<Byte>, m: seq<Byte> ensures Encodes(FRAMING, Frame, b, m) { ReplyEncodes(b, m); }
    RoundTripThen(FRAMING, Frame, bodies, []);
    assert Frames(Frame, bodies) + [] == Frames(Frame, bodies);
    NothingDecodes();
    assert bodies + [] == bodies;
  }

  lemma NothingDecodes()
    ensures Decode(FRAMING, []) == Decoded([], [])
  {
    assert FRAMING([]).Partial?;
  }

  /** Replies written one after another and cut into any chunks decode to exactly the
      payloads, with nothing left over. */
  lemma RepliesRoundTrip(bodies: seq<seq<Byte>>, chunks: seq<seq<Byte>>)
    requires Concat(chunks) == Frames(Frame, bodies)
    ensures FeedAll(FRAMING, [], chunks) == Decoded(bodies, [])
  {
    FramingStable();
    ChunkingIrrelevant(FRAMING, chunks);
    FramesDecode(bodies);
  }
}
