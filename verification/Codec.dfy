/** Length-delimited framing of a byte stream (protocol/codec.py).  The length
    prefix is the base-128 varint of the Protocol Buffers encoding.

    Whether a payload parses as an envelope is a parameter, `parses`. */
module Codec {
  import opened Wrappers

  type Byte = b: int | 0 <= b < 256
  type Bytes = seq<Byte>

  // ---------------------------------------------------------------------
  // Varints
  // ---------------------------------------------------------------------

  function Pow128(n: nat): (p: nat)
    ensures p > 0
  {
    if n == 0 then 1 else 128 * Pow128(n - 1)
  }

  /** The encoding of a number: groups of seven bits, lowest first, all but the
      last marked with the top bit. */
  function Varint(n: nat): Bytes {
    if n < 128 then [n] else [n % 128 + 128] + Varint(n / 128)
  }

  /** The number that groups of seven bits, lowest first, stand for. */
  function Groups(s: Bytes): nat {
    if s == [] then 0 else s[0] % 128 + 128 * Groups(s[1..])
  }

  predicate Continues(b: Byte) { b >= 128 }

  /** The length of the leading run of continuation bytes. */
  function Run(s: Bytes): (n: nat)
    ensures n <= |s|
    ensures forall i :: 0 <= i < n ==> Continues(s[i])
    ensures n < |s| ==> !Continues(s[n])
  {
    if s == [] || !Continues(s[0]) then 0 else 1 + Run(s[1..])
  }

  const MAX_GROUPS := 10

  datatype Header = NeedMore | TooLong | Found(length: nat, offset: nat)

  /** What reading a varint at the front of a buffer should give. */
  function ReadHeader(s: Bytes): Header {
    var n := Run(s);
    if n >= MAX_GROUPS then TooLong
    else if n == |s| then NeedMore
    else Found(Groups(s[..n + 1]), n + 1)
  }

  lemma {:induction false} GroupsAppend(s: Bytes, b: Byte)
    ensures Groups(s + [b]) == Groups(s) + Pow128(|s|) * (b % 128)
  {
    if s == [] {
      assert s + [b] == [b] && [b][1..] == [];
    } else {
      assert (s + [b])[1..] == s[1..] + [b];
      GroupsAppend(s[1..], b);
      var t, m := Pow128(|s| - 1), b % 128;
      assert 128 * (Groups(s[1..]) + t * m) == 128 * Groups(s[1..]) + (128 * t) * m;
    }
  }

  lemma {:induction false} RunIs(s: Bytes, n: nat)
    requires n <= |s| && (forall i :: 0 <= i < n ==> Continues(s[i])) && (n < |s| ==> !Continues(s[n]))
    ensures Run(s) == n
  {
    if n > 0 { RunIs(s[1..], n - 1); }
  }

  lemma {:induction false} RunAtLeast(s: Bytes, n: nat)
    requires n <= |s| && forall i :: 0 <= i < n ==> Continues(s[i])
    ensures Run(s) >= n
  {
    if n > 0 { RunAtLeast(s[1..], n - 1); }
  }

  /** The loop of `_encode_varint`. */
  method EncodeVarint(value: nat) returns (out: Bytes)
    ensures out == Varint(value)
  {
    out := [];
    var rest := value;
    while true
      invariant out + Varint(rest) == Varint(value)
      decreases rest
    {
      var low := rest % 128;
      var before := rest;
      rest := rest / 128;
      if rest != 0 {
        assert Varint(before) == [low + 128] + Varint(rest);
        assert out + ([low + 128] + Varint(rest)) == (out + [low + 128]) + Varint(rest);
        out := out + [low + 128];
      } else {
        return out + [low];
      }
    }
  }

  /** The loop of `_read_varint`.  Bits never overlap, so the source's `|=` adds. */
  method ReadVarint(buf: Bytes) returns (h: Header)
    ensures h == ReadHeader(buf)
  {
    var value: nat, scale: nat, shift: nat := 0, 1, 0;
    for i := 0 to |buf|
      invariant shift == 7 * i && shift <= 63
      invariant scale == Pow128(i) && value == Groups(buf[..i])
      invariant forall k :: 0 <= k < i ==> Continues(buf[k])
    {
      assert buf[..i + 1] == buf[..i] + [buf[i]];
      GroupsAppend(buf[..i], buf[i]);
      value := value + scale * (buf[i] % 128);
      if !Continues(buf[i]) {
        RunIs(buf, i);
        return Found(value, i + 1);
      }
      shift, scale := shift + 7, 128 * scale;
      if shift > 63 {
        RunAtLeast(buf, i + 1);
        return TooLong;
      }
    }
    RunIs(buf, |buf|);
    h := NeedMore;
  }

  lemma {:induction false} VarintShape(n: nat)
    ensures var v := Varint(n); |v| >= 1 && Run(v) == |v| - 1 && Groups(v) == n
    ensures forall k: nat :: n < Pow128(k) && k > 0 ==> |Varint(n)| <= k
    ensures forall k: nat :: n >= Pow128(k) ==> |Varint(n)| > k
    decreases n
  {
    if n >= 128 {
      VarintShape(n / 128);
      assert Varint(n)[1..] == Varint(n / 128);
      forall k: nat | n < Pow128(k) && k > 0 ensures |Varint(n)| <= k {
        assert n / 128 < Pow128(k - 1);
        assert k - 1 > 0;
      }
      forall k: nat | n >= Pow128(k) ensures |Varint(n)| > k {
        if k > 0 { assert n / 128 >= Pow128(k - 1); }
      }
    } else {
      assert [n][1..] == [];
      forall k: nat | n >= Pow128(k) ensures k == 0 {}
    }
  }

  /** The example in the encoding's specification: 150. */
  lemma VarintOf150()
    ensures Varint(150) == [0x96, 0x01]
  {
  }

  /** The first number too long to be read back: 2^70. */
  lemma ReadableLimit()
    ensures Pow128(MAX_GROUPS) == 0x40_0000_0000_0000_0000
  {
    assert Pow128(5) == 0x8_0000_0000;
  }

  lemma {:induction false} RunOfPrefix(s: Bytes, more: Bytes)
    ensures Run(s) < |s| ==> Run(s + more) == Run(s)
    ensures Run(s + more) >= Run(s)
  {
    assert forall i :: 0 <= i < |s| ==> (s + more)[i] == s[i];
    if Run(s) < |s| { RunIs(s + more, Run(s)); } else { RunAtLeast(s + more, |s|); }
  }

  /** Reading back what was encoded gives the number and its exact length, with
      anything behind it, precisely for the numbers below 2^70. */
  lemma VarintReadsBackIff(n: nat, rest: Bytes)
    ensures ReadHeader(Varint(n) + rest) == Found(n, |Varint(n)|) <==> n < Pow128(MAX_GROUPS)
    ensures n >= Pow128(MAX_GROUPS) ==> ReadHeader(Varint(n) + rest) == TooLong
  {
    VarintShape(n);
    RunOfPrefix(Varint(n), rest);
    assert (Varint(n) + rest)[..|Varint(n)|] == Varint(n);
  }

  /** Every proper prefix of an encoding asks for more. */
  lemma VarintPrefixNeedsMore(n: nat, k: nat)
    requires n < Pow128(MAX_GROUPS) && k < |Varint(n)|
    ensures ReadHeader(Varint(n)[..k]) == NeedMore
  {
    VarintShape(n);
    assert forall i :: 0 <= i < k ==> Continues(Varint(n)[i]);
    RunIs(Varint(n)[..k], k);
  }

  /** Reading raises exactly when the first ten bytes all carry the top bit,
      and wants more exactly when there is no final byte and fewer than ten. */
  lemma ReadHeaderCases(s: Bytes)
    ensures ReadHeader(s).TooLong? <==> |s| >= 10 && forall i :: 0 <= i < 10 ==> s[i] >= 0x80
    ensures ReadHeader(s).NeedMore? <==> |s| < 10 && forall i :: 0 <= i < |s| ==> s[i] >= 0x80
  {
    if |s| >= MAX_GROUPS && forall i :: 0 <= i < MAX_GROUPS ==> Continues(s[i]) {
      RunAtLeast(s, MAX_GROUPS);
    }
    if forall i :: 0 <= i < |s| ==> Continues(s[i]) {
      RunAtLeast(s, |s|);
    }
  }

  /** Once a header is decided, more bytes do not change it. */
  lemma HeaderDecided(s: Bytes, more: Bytes)
    requires !ReadHeader(s).NeedMore?
    ensures ReadHeader(s + more) == ReadHeader(s)
    ensures ReadHeader(s).Found? ==> ReadHeader(s).offset <= |s|
  {
    RunOfPrefix(s, more);
    if ReadHeader(s).Found? {
      assert (s + more)[..Run(s) + 1] == s[..Run(s) + 1];
    }
  }

  // ---------------------------------------------------------------------
  // The stream
  // ---------------------------------------------------------------------

  function Frame(payload: Bytes): Bytes {
    Varint(|payload|) + payload
  }

  datatype Error = VarintTooLong | FrameTooLarge(length: nat) | BadPayload

  /** Errors of the framing itself, as opposed to a payload that does not parse. */
  predicate IsFraming(e: Error) { !e.BadPayload? }

  /** The frames taken from a buffer, what is left, and the error met, if any. */
  datatype Parsed = Parsed(frames: seq<Bytes>, rest: Bytes, error: Option<Error>)

  datatype Decoding = Decoding(maxSize: nat, parses: Bytes -> bool)

  datatype Step = Wait | Fail(error: Error) | Take(payload: Bytes, rest: Bytes)

  /** One turn of the loop in `feed`. */
  function NextFrame(d: Decoding, s: Bytes): (r: Step)
    ensures r.Take? ==> |r.rest| < |s|
  {
    match ReadHeader(s)
    case NeedMore => Wait
    case TooLong => Fail(VarintTooLong)
    case Found(length, offset) =>
      if length > d.maxSize then Fail(FrameTooLarge(length))
      else if |s| - offset < length then Wait
      else Take(s[offset..offset + length], s[offset + length..])
  }

  /** A result with frames in front of it. */
  function After(frames: seq<Bytes>, p: Parsed): Parsed {
    p.(frames := frames + p.frames)
  }

  lemma AfterTwice(a: seq<Bytes>, b: seq<Bytes>, p: Parsed)
    ensures After(a, After(b, p)) == After(a + b, p)
    ensures After([], p) == p
  {
    assert a + (b + p.frames) == (a + b) + p.frames;
  }

  /** All frames of a buffer, up to the first error. */
  function Parse(d: Decoding, s: Bytes): Parsed
    decreases |s|
  {
    match NextFrame(d, s)
    case Wait => Parsed([], s, None)
    case Fail(e) => Parsed([], s, Some(e))
    case Take(payload, rest) =>
      if !d.parses(payload) then Parsed([], rest, Some(BadPayload))
      else After([payload], Parse(d, rest))
  }

  class StreamDecoder {
    const d: Decoding
    var buf: Bytes

    constructor (d: Decoding)
      ensures this.d == d && buf == []
    {
      this.d := d;
      buf := [];
    }

    /** One feed, exhausted by its caller or ended by the error it raises. */
    method Feed(data: Bytes) returns (frames: seq<Bytes>, error: Option<Error>)
      modifies this
      ensures Parsed(frames, buf, error) == Parse(d, old(buf) + data)
    {
      buf := buf + data;
      frames := [];
      ghost var whole := Parse(d, buf);
      AfterTwice([], [], whole);
      while true
        invariant whole == After(frames, Parse(d, buf))
        decreases |buf|
      {
        var header := ReadVarint(buf);
        match header {
          case NeedMore => return frames, None;
          case TooLong => return frames, Some(VarintTooLong);
          case Found(length, offset) =>
            if length > d.maxSize { return frames, Some(FrameTooLarge(length)); }
            if |buf| - offset < length { return frames, None; }
            var payload := buf[offset..offset + length];
            assert NextFrame(d, buf) == Take(payload, buf[offset + length..]);
            buf := buf[offset + length..];
            if !d.parses(payload) { return frames, Some(BadPayload); }
            AfterTwice(frames, [payload], Parse(d, buf));
            frames := frames + [payload];
        }
      }
    }
  }

  lemma StepDecided(d: Decoding, s: Bytes, more: Bytes)
    requires !NextFrame(d, s).Wait?
    ensures NextFrame(d, s).Fail? ==> NextFrame(d, s + more) == NextFrame(d, s)
    ensures NextFrame(d, s).Take? ==>
      NextFrame(d, s + more) == Take(NextFrame(d, s).payload, NextFrame(d, s).rest + more)
  {
    HeaderDecided(s, more);
    if NextFrame(d, s).Take? {
      var h := ReadHeader(s);
      assert (s + more)[h.offset..h.offset + h.length] == s[h.offset..h.offset + h.length];
      assert (s + more)[h.offset + h.length..] == s[h.offset + h.length..] + more;
    }
  }

  /** Parsing a longer buffer is parsing the shorter one, then going on from
      what it left; after an error there is no going on. */
  lemma {:induction false} ParseExtends(d: Decoding, s: Bytes, more: Bytes)
    ensures var p := Parse(d, s); var q := Parse(d, s + more);
      q == if p.error.Some? then p.(rest := p.rest + more) else After(p.frames, Parse(d, p.rest + more))
    decreases |s|
  {
    var step := NextFrame(d, s);
    if !step.Wait? {
      StepDecided(d, s, more);
      if step.Take? && d.parses(step.payload) {
        ParseExtends(d, step.rest, more);
        var p := Parse(d, step.rest);
        AfterTwice([step.payload], p.frames, Parse(d, p.rest + more));
      }
    }
  }

  // ---------------------------------------------------------------------
  // Chunking
  // ---------------------------------------------------------------------

  function Flatten(chunks: seq<Bytes>): Bytes {
    if chunks == [] then [] else chunks[0] + Flatten(chunks[1..])
  }

  /** Successive feeds, stopping at the first error; `unread` chunks were never fed. */
  datatype Fed = Fed(frames: seq<Bytes>, rest: Bytes, error: Option<Error>, unread: seq<Bytes>)

  function FeedAll(d: Decoding, buf: Bytes, chunks: seq<Bytes>): Fed
    decreases |chunks|
  {
    if chunks == [] then Fed([], buf, None, [])
    else
      var p := Parse(d, buf + chunks[0]);
      if p.error.Some? then Fed(p.frames, p.rest, p.error, chunks[1..])
      else AfterFed(p.frames, FeedAll(d, p.rest, chunks[1..]))
  }

  function AfterFed(frames: seq<Bytes>, f: Fed): Fed {
    f.(frames := frames + f.frames)
  }

  lemma AfterFedTwice(a: seq<Bytes>, b: seq<Bytes>, f: Fed)
    ensures AfterFed(a, AfterFed(b, f)) == AfterFed(a + b, f)
    ensures AfterFed([], f) == f
  {
    assert a + (b + f.frames) == (a + b) + f.frames;
  }

  /** A buffer as a feed without error leaves it. */
  predicate Settled(d: Decoding, buf: Bytes) {
    Parse(d, buf) == Parsed([], buf, None)
  }

  lemma {:induction false} RestIsSettled(d: Decoding, s: Bytes)
    requires Parse(d, s).error.None?
    ensures Settled(d, Parse(d, s).rest)
    decreases |s|
  {
    var step := NextFrame(d, s);
    if step.Take? { RestIsSettled(d, step.rest); }
  }

  /** However the bytes are cut into feeds, the frames and the error are those
      of one feed, and so is the buffer, but for chunks an error left unread. */
  lemma {:induction false} ChunkingIndependence(d: Decoding, buf: Bytes, chunks: seq<Bytes>)
    requires Settled(d, buf)
    ensures var f := FeedAll(d, buf, chunks); var p := Parse(d, buf + Flatten(chunks));
      && f.frames == p.frames && f.error == p.error
      && f.rest + Flatten(f.unread) == p.rest
      && (f.error.None? ==> f.unread == [])
    decreases |chunks|
  {
    if chunks == [] {
      assert buf + [] == buf;
    } else {
      var more := Flatten(chunks[1..]);
      assert buf + Flatten(chunks) == (buf + chunks[0]) + more;
      ParseExtends(d, buf + chunks[0], more);
      var p := Parse(d, buf + chunks[0]);
      if p.error.None? {
        RestIsSettled(d, buf + chunks[0]);
        ChunkingIndependence(d, p.rest, chunks[1..]);
      }
    }
  }

  /** The same of the object: feeding it chunk by chunk is `FeedAll`. */
  method FeedChunks(dec: StreamDecoder, chunks: seq<Bytes>)
    returns (frames: seq<Bytes>, error: Option<Error>, fed: nat)
    modifies dec
    ensures fed <= |chunks|
    ensures Fed(frames, dec.buf, error, chunks[fed..]) == FeedAll(dec.d, old(dec.buf), chunks)
  {
    frames, error, fed := [], None, 0;
    assert chunks[0..] == chunks;
    ghost var whole := FeedAll(dec.d, dec.buf, chunks);
    AfterFedTwice([], [], whole);
    while fed < |chunks|
      invariant fed <= |chunks| && error.None?
      invariant whole == AfterFed(frames, FeedAll(dec.d, dec.buf, chunks[fed..]))
    {
      assert chunks[fed..][1..] == chunks[fed + 1..];
      var more;
      more, error := dec.Feed(chunks[fed]);
      fed := fed + 1;
      if error.None? { AfterFedTwice(frames, more, FeedAll(dec.d, dec.buf, chunks[fed..])); }
      frames := frames + more;
      if error.Some? { return; }
    }
  }

  /** A framing error is absorbing: every later feed yields nothing and raises
      the same again.  A payload that does not parse is not: it is consumed, and
      the next feed goes on behind it. */
  lemma {:induction false} FramingErrorsAbsorb(d: Decoding, s: Bytes, data: Bytes)
    requires Parse(d, s).error.Some? && IsFraming(Parse(d, s).error.value)
    ensures var p := Parse(d, s); Parse(d, p.rest + data) == Parsed([], p.rest + data, p.error)
    decreases |s|
  {
    var step := NextFrame(d, s);
    if step.Take? {
      FramingErrorsAbsorb(d, step.rest, data);
    } else {
      StepDecided(d, s, data);
    }
  }

  lemma BadPayloadIsSkipped(d: Decoding, bad: Bytes, good: Bytes)
    requires !d.parses(bad) && d.parses(good)
    requires |bad| <= d.maxSize && |good| <= d.maxSize
    requires |bad| < Pow128(MAX_GROUPS) && |good| < Pow128(MAX_GROUPS)
    ensures Parse(d, Frame(bad) + Frame(good)) == Parsed([], Frame(good), Some(BadPayload))
    ensures Parse(d, Frame(good)) == Parsed([good], [], None)
  {
    FrameTaken(d, bad, Frame(good));
    FrameTaken(d, good, []);
    assert Frame(good) + [] == Frame(good);
    NothingParsed(d);
  }

  // ---------------------------------------------------------------------
  // Round trip
  // ---------------------------------------------------------------------

  predicate Deliverable(d: Decoding, payload: Bytes) {
    |payload| <= d.maxSize && |payload| < Pow128(MAX_GROUPS) && d.parses(payload)
  }

  lemma NothingParsed(d: Decoding)
    ensures Parse(d, []) == Parsed([], [], None)
  {
    RunIs([], 0);
  }

  lemma FrameTaken(d: Decoding, payload: Bytes, rest: Bytes)
    requires |payload| < Pow128(MAX_GROUPS)
    ensures NextFrame(d, Frame(payload) + rest) ==
      if |payload| <= d.maxSize then Take(payload, rest) else Fail(FrameTooLarge(|payload|))
  {
    var v := Varint(|payload|);
    assert Frame(payload) + rest == v + (payload + rest);
    VarintReadsBackIff(|payload|, payload + rest);
    assert (Frame(payload) + rest)[|v|..|v| + |payload|] == payload;
    assert (Frame(payload) + rest)[|v| + |payload|..] == rest;
  }

  function FrameAll(payloads: seq<Bytes>): seq<Bytes> {
    if payloads == [] then [] else [Frame(payloads[0])] + FrameAll(payloads[1..])
  }

  lemma LongFrameFails(d: Decoding, payload: Bytes, rest: Bytes)
    requires |payload| >= Pow128(MAX_GROUPS)
    ensures NextFrame(d, Frame(payload) + rest) == Fail(VarintTooLong)
  {
    FrameAndRest(payload, rest);
    VarintReadsBackIff(|payload|, payload + rest);
  }

  lemma FrameAndRest(payload: Bytes, rest: Bytes)
    ensures Frame(payload) + rest == Varint(|payload|) + (payload + rest)
  {
  }

  lemma FirstFrameParsed(d: Decoding, p: Bytes, rest: Bytes)
    ensures var r := Parse(d, Frame(p) + rest);
      if Deliverable(d, p) then r == After([p], Parse(d, rest))
      else r.frames == [] && r.error.Some?
  {
    var s := Frame(p) + rest;
    var next := NextFrame(d, s);
    assert next == (if |p| >= Pow128(MAX_GROUPS) then Fail(VarintTooLong)
                    else if |p| <= d.maxSize then Take(p, rest) else Fail(FrameTooLarge(|p|))) by {
      if |p| < Pow128(MAX_GROUPS) { FrameTaken(d, p, rest); } else { LongFrameFails(d, p, rest); }
    }
  }

  lemma SameTails(p: Bytes, frames: seq<Bytes>, payloads: seq<Bytes>)
    requires payloads != [] && payloads[0] == p
    ensures [p] + frames == payloads <==> frames == payloads[1..]
  {
    assert ([p] + frames)[1..] == frames;
    assert payloads == [p] + payloads[1..];
  }

  /** The framed payloads come back, all of them and nothing else, exactly when
      each is within the size limit, has a readable length, and parses. */
  lemma {:induction false} RoundTripIff(d: Decoding, payloads: seq<Bytes>)
    ensures (Parse(d, Flatten(FrameAll(payloads))) == Parsed(payloads, [], None)) <==>
              (forall p :: p in payloads ==> Deliverable(d, p))
    decreases |payloads|
  {
    if payloads == [] {
      NothingParsed(d);
    } else {
      var p, rest := payloads[0], Flatten(FrameAll(payloads[1..]));
      assert forall x :: x in payloads <==> x == p || x in payloads[1..];
      assert FrameAll(payloads)[1..] == FrameAll(payloads[1..]);
      assert Flatten(FrameAll(payloads)) == Frame(p) + rest;
      RoundTripIff(d, payloads[1..]);
      FirstFrameParsed(d, p, rest);
      SameTails(p, Parse(d, rest).frames, payloads);
    }
  }

  lemma {:induction false} GroupsBound(s: Bytes)
    ensures Groups(s) < Pow128(|s|)
  {
    if s != [] { GroupsBound(s[1..]); }
  }

  /** No header of a length is shorter than its encoding. */
  lemma HeaderNotShorter(s: Bytes)
    requires ReadHeader(s).Found?
    ensures |Varint(ReadHeader(s).length)| <= ReadHeader(s).offset <= |s|
  {
    var h := ReadHeader(s);
    GroupsBound(s[..h.offset]);
    VarintShape(h.length);
  }

  /** However lengths are encoded, frames take at least the bytes that framing
      their payloads takes. */
  lemma {:induction false} FramesNeedBytes(d: Decoding, s: Bytes)
    ensures var p := Parse(d, s); |Flatten(FrameAll(p.frames))| + |p.rest| <= |s|
    decreases |s|
  {
    var step := NextFrame(d, s);
    if step.Take? {
      HeaderNotShorter(s);
      if d.parses(step.payload) {
        FramesNeedBytes(d, step.rest);
        var frames := Parse(d, step.rest).frames;
        assert ([step.payload] + frames)[1..] == frames;
        assert FrameAll([step.payload] + frames)[1..] == FrameAll(frames);
      }
    }
  }

  /** End to end: the concatenated frames, cut into pieces in any way whatever
      and fed piece by piece, decode to exactly the payloads. */
  lemma CutRoundTrip(d: Decoding, payloads: seq<Bytes>, pieces: seq<Bytes>)
    requires forall p :: p in payloads ==> Deliverable(d, p)
    requires Flatten(pieces) == Flatten(FrameAll(payloads))
    ensures FeedAll(d, [], pieces) == Fed(payloads, [], None, [])
  {
    NothingParsed(d);
    ChunkingIndependence(d, [], pieces);
    assert [] + Flatten(pieces) == Flatten(pieces);
    RoundTripIff(d, payloads);
  }
}
