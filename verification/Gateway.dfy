/** The two relay loops of the gateway between the Bluetooth link and the
    server's WebSocket (gateway.py). */
module Gateway {
  import opened Wrappers
  import opened Codec
  import opened BleLink

  // ---------------------------------------------------------------------
  // Downlink
  // ---------------------------------------------------------------------

  /** A WebSocket message from the server, as far as the relay looks at it. */
  datatype Message =
    | Binary(data: Bytes)
    | LeaseAcquired
    | LeaseLost                // an error, or any other lease status
    | OtherText                // any other JSON object, or text that is not JSON
    | NotAnObject              // JSON, but no object: looking into it raises

  /** The first n messages are ones the loop can look into. */
  predicate Objects(ms: seq<Message>, n: nat)
    requires n <= |ms|
  {
    forall i :: 0 <= i < n ==> !ms[i].NotAnObject?
  }

  /** The envelopes relayed down: binary messages that parse, re-encoded. */
  function Relayed(d: Decoding, encode: Bytes -> Bytes, ms: seq<Message>): seq<Bytes> {
    if ms == [] then []
    else
      var m, before := ms[|ms| - 1], Relayed(d, encode, ms[..|ms| - 1]);
      if m.Binary? && d.parses(m.data) then before + [encode(m.data)] else before
  }

  function Believed(held: bool, m: Message): bool {
    if m.LeaseAcquired? then true else if m.LeaseLost? then false else held
  }

  /** Whether the gateway believes it holds the lease after some messages. */
  function LeaseBelief(held: bool, ms: seq<Message>): bool {
    if ms == [] then held else Believed(LeaseBelief(held, ms[..|ms| - 1]), ms[|ms| - 1])
  }

  predicate IsLeaseNews(m: Message) { m.LeaseAcquired? || m.LeaseLost? }

  /** The gateway believes the last word on the lease, and without any what it
      believed before. */
  lemma {:induction false} BeliefIsLastWord(held: bool, ms: seq<Message>, i: nat)
    requires i <= |ms| && forall j :: i <= j < |ms| ==> !IsLeaseNews(ms[j])
    ensures i == 0 ==> LeaseBelief(held, ms) == held
    ensures i > 0 && IsLeaseNews(ms[i - 1]) ==> (LeaseBelief(held, ms) <==> ms[i - 1].LeaseAcquired?)
    decreases |ms|
  {
    if i < |ms| { BeliefIsLastWord(held, ms[..|ms| - 1], i); }
  }

  /** How many of the messages are relayed. */
  function Relays(d: Decoding, ms: seq<Message>): nat {
    if ms == [] then 0
    else Relays(d, ms[..|ms| - 1]) + (if ms[|ms| - 1].Binary? && d.parses(ms[|ms| - 1].data) then 1 else 0)
  }

  /** Each binary message that parses is relayed once, re-encoded, at its place. */
  lemma {:induction false} EachIsRelayed(d: Decoding, encode: Bytes -> Bytes, ms: seq<Message>, i: nat)
    requires i < |ms| && ms[i].Binary? && d.parses(ms[i].data)
    ensures |Relayed(d, encode, ms)| == Relays(d, ms) && Relays(d, ms[..i]) < Relays(d, ms)
    ensures Relayed(d, encode, ms)[Relays(d, ms[..i])] == encode(ms[i].data)
    decreases |ms|
  {
    RelaysCount(d, encode, ms);
    RelaysCount(d, encode, ms[..|ms| - 1]);
    var before := ms[..|ms| - 1];
    if i < |before| {
      EachIsRelayed(d, encode, before, i);
      assert before[..i] == ms[..i];
    }
  }

  lemma {:induction false} RelaysCount(d: Decoding, encode: Bytes -> Bytes, ms: seq<Message>)
    ensures |Relayed(d, encode, ms)| == Relays(d, ms)
  {
    if ms != [] { RelaysCount(d, encode, ms[..|ms| - 1]); }
  }

  lemma BelievedOne(held: bool, ms: seq<Message>, i: nat)
    requires i < |ms|
    ensures LeaseBelief(held, ms[..i + 1]) == Believed(LeaseBelief(held, ms[..i]), ms[i])
  {
    assert ms[..i + 1][..i] == ms[..i];
  }

  lemma RelayedOne(d: Decoding, encode: Bytes -> Bytes, ms: seq<Message>, i: nat)
    requires i < |ms|
    ensures var before := Relayed(d, encode, ms[..i]);
      Relayed(d, encode, ms[..i + 1]) ==
        if ms[i].Binary? && d.parses(ms[i].data) then before + [encode(ms[i].data)] else before
  {
    assert ms[..i + 1][..i] == ms[..i];
  }

  /** Where a run of writes started. */
  datatype Progress = Progress(size: nat, capacity: nat, log: seq<Bytes>, held: nat)

  /** Where it has got after some payloads, with the log and the queue as given. */
  predicate Reached(from: Progress, payloads: seq<Bytes>, counts: seq<nat>, log: seq<Bytes>, held: nat) {
    && from.size > 0 && |counts| == |payloads|
    && log == from.log + CutTo(payloads, counts, from.size)
    && Fills(payloads, counts, from.size, from.capacity - from.held)
    && held <= from.held + Sum(counts)
  }

  /** One more envelope relayed. */
  lemma Grown(
    from: Progress, payloads: seq<Bytes>, counts: seq<nat>, log: seq<Bytes>, held: nat,
    p: Bytes, queued: nat, log1: seq<Bytes>, held1: nat)
    requires Reached(from, payloads, counts, log, held)
    requires queued <= |Cut(p, from.size)| && log1 == log + Cut(p, from.size)[..queued] && held1 <= held + queued
    requires queued < |Cut(p, from.size)| ==> held1 == from.capacity
    ensures Reached(from, payloads + [p], counts + [queued], log1, held1)
  {
    var ps, cs := payloads + [p], counts + [queued];
    assert ps[..|payloads|] == payloads && cs[..|counts|] == counts;
    assert CutTo(ps, cs, from.size) == CutTo(payloads, counts, from.size) + Cut(p, from.size)[..queued];
    Regroup(from.log, CutTo(payloads, counts, from.size), Cut(p, from.size)[..queued]);
  }

  /** One more message received. */
  lemma ReachedOne(
    from: Progress, d: Decoding, encode: Bytes -> Bytes, ms: seq<Message>, i: nat, counts: seq<nat>,
    log: seq<Bytes>, held: nat, queued: Option<nat>, log1: seq<Bytes>, held1: nat)
    requires i < |ms| && Reached(from, Relayed(d, encode, ms[..i]), counts, log, held)
    requires queued.Some? <==> ms[i].Binary? && d.parses(ms[i].data)
    requires queued.None? ==> log1 == log && held1 == held
    requires queued.Some? ==>
      var pieces := Cut(encode(ms[i].data), from.size);
      && queued.value <= |pieces| && log1 == log + pieces[..queued.value] && held1 <= held + queued.value
      && (queued.value < |pieces| ==> held1 == from.capacity)
    ensures Reached(from, Relayed(d, encode, ms[..i + 1]),
                    if queued.Some? then counts + [queued.value] else counts, log1, held1)
  {
    RelayedOne(d, encode, ms, i);
    if queued.Some? {
      Grown(from, Relayed(d, encode, ms[..i]), counts, log, held, encode(ms[i].data), queued.value, log1, held1);
    }
  }

  // ---------------------------------------------------------------------
  // Uplink
  // ---------------------------------------------------------------------

  /** What a decoded envelope meets: the lease flag set; clear, and set again
      within the wait for it; clear, and not set in time; a closed socket. */
  datatype LeaseAt = Held | Granted | TimedOut | Closed

  /** What goes to the server. */
  datatype Up = Acquire | Envelope(payload: Bytes)

  datatype End = Eof | Broken | Undecodable(error: Error)

  predicate Passes(at: LeaseAt) { at.Held? || at.Granted? }

  /** What goes up for one envelope. */
  function Ups(at: LeaseAt, payload: Bytes): seq<Up> {
    match at
    case Held => [Envelope(payload)]
    case Granted => [Acquire, Envelope(payload)]
    case TimedOut => [Acquire]
    case Closed => []
  }

  /** What has gone up, for how many envelopes, and whether the loop goes on. */
  datatype Sending = Sending(sent: seq<Up>, count: nat, going: bool)

  const START := Sending([], 0, true)

  /** `leaseAt(i)` is what the i-th envelope meets. */
  function SendOne(u: Sending, payload: Bytes, leaseAt: nat -> LeaseAt): Sending {
    if !u.going then u
    else Sending(u.sent + Ups(leaseAt(u.count), payload), u.count + 1, Passes(leaseAt(u.count)))
  }

  function SendFrames(u: Sending, frames: seq<Bytes>, encode: Bytes -> Bytes, leaseAt: nat -> LeaseAt): Sending {
    if frames == [] then u
    else SendOne(SendFrames(u, frames[..|frames| - 1], encode, leaseAt), encode(frames[|frames| - 1]), leaseAt)
  }

  lemma {:induction false} SendAppend(
    u: Sending, a: seq<Bytes>, b: seq<Bytes>, encode: Bytes -> Bytes, leaseAt: nat -> LeaseAt)
    ensures SendFrames(u, a + b, encode, leaseAt) == SendFrames(SendFrames(u, a, encode, leaseAt), b, encode, leaseAt)
    decreases |b|
  {
    if b == [] {
      assert a + b == a;
    } else {
      assert (a + b)[..|a + b| - 1] == a + b[..|b| - 1];
      SendAppend(u, a, b[..|b| - 1], encode, leaseAt);
    }
  }

  lemma {:induction false} SendStopped(u: Sending, frames: seq<Bytes>, encode: Bytes -> Bytes, leaseAt: nat -> LeaseAt)
    requires !u.going
    ensures SendFrames(u, frames, encode, leaseAt) == u
  {
    if frames != [] { SendStopped(u, frames[..|frames| - 1], encode, leaseAt); }
  }

  /** The reads before the first empty one, which is the end of the link. */
  function UntilEof(chunks: seq<Bytes>): (r: seq<Bytes>)
    ensures r <= chunks && [] !in r
    ensures |r| < |chunks| ==> chunks[|r|] == []
  {
    if chunks == [] || chunks[0] == [] then [] else [chunks[0]] + UntilEof(chunks[1..])
  }

  /** What the send loop does with what a link decodes to. */
  function Uplink(frames: seq<Bytes>, error: Option<Error>, encode: Bytes -> Bytes, leaseAt: nat -> LeaseAt)
    : (seq<Up>, End)
  {
    var u := SendFrames(START, frames, encode, leaseAt);
    (u.sent, if !u.going then Broken else if error.Some? then Undecodable(error.value) else Eof)
  }

  function Envelopes(ups: seq<Up>): seq<Bytes> {
    if ups == [] then []
    else
      var before, last := Envelopes(ups[..|ups| - 1]), ups[|ups| - 1];
      if last.Envelope? then before + [last.payload] else before
  }

  function Encoded(frames: seq<Bytes>, encode: Bytes -> Bytes): (r: seq<Bytes>)
    ensures |r| == |frames| && forall i :: 0 <= i < |frames| ==> r[i] == encode(frames[i])
  {
    if frames == [] then [] else Encoded(frames[..|frames| - 1], encode) + [encode(frames[|frames| - 1])]
  }

  lemma EnvelopesOf(ups: seq<Up>, at: LeaseAt, payload: Bytes)
    ensures Envelopes(ups + Ups(at, payload)) == Envelopes(ups) + (if Passes(at) then [payload] else [])
  {
    match at
    case Held =>
      assert (ups + [Envelope(payload)])[..|ups|] == ups;
    case Granted =>
      var asked := ups + [Acquire];
      assert asked[..|ups|] == ups;
      assert (ups + [Acquire, Envelope(payload)])[..|asked|] == asked;
    case TimedOut =>
      assert (ups + [Acquire])[..|ups|] == ups;
    case Closed =>
      assert ups + [] == ups;
  }

  /** Of `frames` exactly the first `k` have gone up, in order, and the loop goes
      on just if that is all of them. */
  predicate SentFirst(u: Sending, frames: seq<Bytes>, k: nat, encode: Bytes -> Bytes, leaseAt: nat -> LeaseAt) {
    && k <= |frames| && Envelopes(u.sent) == Encoded(frames[..k], encode)
    && (forall i :: 0 <= i < k ==> Passes(leaseAt(i)))
    && (u.going <==> k == |frames|) && (k < |frames| ==> !Passes(leaseAt(k)))
    && (u.going ==> u.count == k)
  }

  lemma SentOneMore(
    u: Sending, frames: seq<Bytes>, k: nat, p: Bytes, encode: Bytes -> Bytes, leaseAt: nat -> LeaseAt)
    returns (k1: nat)
    requires SentFirst(u, frames, k, encode, leaseAt)
    ensures SentFirst(SendOne(u, encode(p), leaseAt), frames + [p], k1, encode, leaseAt)
  {
    var all := frames + [p];
    assert all[..k] == frames[..k];
    k1 := k;
    if u.going {
      EnvelopesOf(u.sent, leaseAt(k), encode(p));
      if Passes(leaseAt(k)) {
        k1 := k + 1;
        assert all[..k1] == all && all[..k1 - 1] == frames == frames[..k];
      }
    }
  }

  /** The envelopes that go up are the first `k` that came, in order, each while
      the lease flag was set or once it had come back; the loop stops at the
      first one for which neither holds. */
  lemma {:induction false} SentInOrder(frames: seq<Bytes>, encode: Bytes -> Bytes, leaseAt: nat -> LeaseAt)
    returns (k: nat)
    ensures SentFirst(SendFrames(START, frames, encode, leaseAt), frames, k, encode, leaseAt)
    decreases |frames|
  {
    if frames == [] {
      k := 0;
    } else {
      var before, p := frames[..|frames| - 1], frames[|frames| - 1];
      var j := SentInOrder(before, encode, leaseAt);
      k := SentOneMore(SendFrames(START, before, encode, leaseAt), before, j, p, encode, leaseAt);
      assert before + [p] == frames;
    }
  }

  /** What is sent at place `j`: an envelope goes up by itself while the flag is
      set, and right behind the request for the lease otherwise; and a request
      goes up for nothing else. */
  predicate InPlace(ups: seq<Up>, j: nat, leaseAt: nat -> LeaseAt)
    requires j < |ups|
  {
    var n := |Envelopes(ups[..j])|;
    if ups[j].Envelope? then
      if j > 0 && ups[j - 1].Acquire? then leaseAt(n).Granted? else leaseAt(n).Held?
    else
      leaseAt(n).Granted? || (leaseAt(n).TimedOut? && j == |ups| - 1)
  }

  lemma InPlaceEarlier(ups: seq<Up>, more: seq<Up>, j: nat, leaseAt: nat -> LeaseAt)
    requires j < |ups| && InPlace(ups, j, leaseAt) && (ups[|ups| - 1].Acquire? ==> more == [])
    ensures InPlace(ups + more, j, leaseAt)
  {
    assert (ups + more)[..j] == ups[..j];
    if more == [] { assert ups + more == ups; }
  }

  lemma UpsInPlace(ups: seq<Up>, n: nat, payload: Bytes, leaseAt: nat -> LeaseAt)
    requires |Envelopes(ups)| == n && (ups != [] ==> ups[|ups| - 1].Envelope?)
    requires forall j :: 0 <= j < |ups| ==> InPlace(ups, j, leaseAt)
    ensures var all := ups + Ups(leaseAt(n), payload); forall j :: 0 <= j < |all| ==> InPlace(all, j, leaseAt)
  {
    var more := Ups(leaseAt(n), payload);
    var all := ups + more;
    forall j | 0 <= j < |all| ensures InPlace(all, j, leaseAt) {
      if j < |ups| {
        InPlaceEarlier(ups, more, j, leaseAt);
      } else {
        assert all[..|ups|] == ups;
        if j == |ups| + 1 { assert all[..j] == ups + [Acquire] && (ups + [Acquire])[..|ups|] == ups; }
      }
    }
  }

  /** Every envelope that goes up while the lease flag is clear goes up right
      behind a request for the lease that was granted; nothing else is requested. */
  lemma {:induction false} RequestsComeFirst(frames: seq<Bytes>, encode: Bytes -> Bytes, leaseAt: nat -> LeaseAt)
    ensures var u := SendFrames(START, frames, encode, leaseAt);
      && (forall j :: 0 <= j < |u.sent| ==> InPlace(u.sent, j, leaseAt))
      && (u.going && u.sent != [] ==> u.sent[|u.sent| - 1].Envelope?)
      && (u.going ==> |Envelopes(u.sent)| == u.count)
      && (u.going || u.count > 0)
      && (!u.going && leaseAt(u.count - 1).TimedOut? ==> u.sent != [] && u.sent[|u.sent| - 1].Acquire?)
    decreases |frames|
  {
    if frames != [] {
      var before, p := frames[..|frames| - 1], encode(frames[|frames| - 1]);
      RequestsComeFirst(before, encode, leaseAt);
      var u := SendFrames(START, before, encode, leaseAt);
      if u.going {
        UpsInPlace(u.sent, u.count, p, leaseAt);
        EnvelopesOf(u.sent, leaseAt(u.count), p);
      }
    }
  }

  /** However the bytes from the link are cut into reads, what goes up is what
      the whole of them decodes to, in order, up to the first error or the first
      envelope the lease does not let through. */
  lemma UplinkSendsStream(d: Decoding, chunks: seq<Bytes>, encode: Bytes -> Bytes, leaseAt: nat -> LeaseAt)
    returns (k: nat)
    ensures var f := FeedAll(d, [], UntilEof(chunks)); var p := Parse(d, Flatten(UntilEof(chunks)));
      var (ups, end) := Uplink(f.frames, f.error, encode, leaseAt);
      && k <= |p.frames| && Envelopes(ups) == Encoded(p.frames[..k], encode)
      && (forall i :: 0 <= i < k ==> Passes(leaseAt(i)))
      && (k < |p.frames| ==> !Passes(leaseAt(k)) && end == Broken)
      && (k == |p.frames| ==> end == if p.error.Some? then Undecodable(p.error.value) else Eof)
  {
    NothingParsed(d);
    ChunkingIndependence(d, [], UntilEof(chunks));
    assert [] + Flatten(UntilEof(chunks)) == Flatten(UntilEof(chunks));
    k := SentInOrder(Parse(d, Flatten(UntilEof(chunks))).frames, encode, leaseAt);
  }

  /** From end to end: payloads framed by the peer, cut into reads in any way
      without an empty one, all go up, in order, if and only if the lease lets
      each of them through. */
  lemma UplinkDelivers(
    d: Decoding, payloads: seq<Bytes>, chunks: seq<Bytes>, encode: Bytes -> Bytes, leaseAt: nat -> LeaseAt)
    requires forall p :: p in payloads ==> Deliverable(d, p)
    requires [] !in chunks && Flatten(chunks) == Flatten(FrameAll(payloads))
    ensures var f := FeedAll(d, [], UntilEof(chunks)); var (ups, end) := Uplink(f.frames, f.error, encode, leaseAt);
      && (end == Eof <==> forall i :: 0 <= i < |payloads| ==> Passes(leaseAt(i)))
      && (end == Eof ==> Envelopes(ups) == Encoded(payloads, encode))
  {
    assert UntilEof(chunks) == chunks;
    CutRoundTrip(d, payloads, chunks);
    var k := SentInOrder(payloads, encode, leaseAt);
    assert payloads[..|payloads|] == payloads;
  }

  /** What is still to come of the stream after one more read. */
  function Later(d: Decoding, buf: Bytes, fed: seq<Bytes>, i: nat): Fed
    requires i < |fed|
  {
    var p := Parse(d, buf + fed[i]);
    if p.error.Some? then Fed([], p.rest, p.error, fed[i + 1..]) else FeedAll(d, p.rest, fed[i + 1..])
  }

  lemma FedOnce(d: Decoding, buf: Bytes, fed: seq<Bytes>, i: nat)
    requires i < |fed|
    ensures FeedAll(d, buf, fed[i..]) == AfterFed(Parse(d, buf + fed[i]).frames, Later(d, buf, fed, i))
  {
    assert fed[i..][0] == fed[i] && fed[i..][1..] == fed[i + 1..];
    var frames := Parse(d, buf + fed[i]).frames;
    assert frames + [] == frames;
  }

  /** Where the loop stands after one more read. */
  lemma ReadOnce(
    frames: seq<Bytes>, got: seq<Bytes>, later: Fed, whole: Fed, encode: Bytes -> Bytes, leaseAt: nat -> LeaseAt)
    requires whole == AfterFed(frames, AfterFed(got, later))
    ensures whole == AfterFed(frames + got, later)
    ensures var u := SendFrames(SendFrames(START, frames, encode, leaseAt), got, encode, leaseAt);
      && u == SendFrames(START, frames + got, encode, leaseAt)
      && (!u.going ==> Uplink(whole.frames, whole.error, encode, leaseAt) == (u.sent, Broken))
      && (u.going && later.frames == [] && later.error.Some? ==>
            Uplink(whole.frames, whole.error, encode, leaseAt) == (u.sent, Undecodable(later.error.value)))
  {
    AfterFedTwice(frames, got, later);
    SendAppend(START, frames, got, encode, leaseAt);
    SendAppend(START, frames + got, later.frames, encode, leaseAt);
    var u := SendFrames(START, frames + got, encode, leaseAt);
    if !u.going { SendStopped(u, later.frames, encode, leaseAt); }
  }

  // ---------------------------------------------------------------------
  // The object
  // ---------------------------------------------------------------------

  class Gateway {
    const d: Decoding
    const encode: Bytes -> Bytes
    const writer: BleWriter
    var lease: bool

    constructor (d: Decoding, encode: Bytes -> Bytes, writer: BleWriter)
      ensures this.d == d && this.encode == encode && this.writer == writer && !lease
    {
      this.d, this.encode, this.writer := d, encode, writer;
      lease := false;
    }

    /** The write of one framed envelope: its first pieces are queued, and all of
        them unless the queue was found full. */
    method Relay(payload: Bytes, taken: nat -> nat) returns (queued: nat)
      requires writer.Valid()
      modifies writer
      ensures writer.Valid() && queued <= |Cut(payload, writer.chunkSize)|
      ensures writer.Log() == old(writer.Log()) + Cut(payload, writer.chunkSize)[..queued]
      ensures queued < |Cut(payload, writer.chunkSize)| ==> |writer.outgoing| == writer.capacity
      ensures |writer.outgoing| <= old(|writer.outgoing|) + queued
    {
      queued := writer.Write(Frame(payload), taken);
    }

    /** The receive loop, up to the first message that ends it: it handles the
        first `heard` messages, and `counts` says how many pieces of each relayed
        envelope found room.  `taken(i)(j)` pieces leave the queue before the j-th
        put for message i. */
    method Receive(ms: seq<Message>, taken: nat -> nat -> nat) returns (heard: nat, counts: seq<nat>)
      requires writer.Valid()
      modifies this, writer
      ensures heard <= |ms| && (heard < |ms| ==> ms[heard].NotAnObject?)
      ensures Objects(ms, heard)
      ensures writer.Valid() && lease == LeaseBelief(old(lease), ms[..heard])
      ensures |counts| == |Relayed(d, encode, ms[..heard])|
      ensures writer.Log() == old(writer.Log()) + CutTo(Relayed(d, encode, ms[..heard]), counts, writer.chunkSize)
      ensures Fills(Relayed(d, encode, ms[..heard]), counts, writer.chunkSize, writer.capacity - old(|writer.outgoing|))
    {
      heard, counts := 0, [];
      ghost var start := Progress(writer.chunkSize, writer.capacity, writer.Log(), |writer.outgoing|);
      while heard < |ms|
        invariant heard <= |ms| && Objects(ms, heard)
        invariant writer.Valid() && lease == LeaseBelief(old(lease), ms[..heard])
        invariant Reached(start, Relayed(d, encode, ms[..heard]), counts, writer.Log(), |writer.outgoing|)
      {
        if ms[heard].NotAnObject? { return; }
        BelievedOne(old(lease), ms, heard);
        ghost var log, held := writer.Log(), |writer.outgoing|;
        var queued := ReceiveOne(ms[heard], taken(heard));
        ReachedOne(start, d, encode, ms, heard, counts, log, held, queued, writer.Log(), |writer.outgoing|);
        counts := if queued.Some? then counts + [queued.value] else counts;
        heard := heard + 1;
      }
    }

    /** One message of it. */
    method ReceiveOne(m: Message, taken: nat -> nat) returns (queued: Option<nat>)
      requires writer.Valid() && !m.NotAnObject?
      modifies this, writer
      ensures writer.Valid() && lease == Believed(old(lease), m)
      ensures queued.Some? <==> m.Binary? && d.parses(m.data)
      ensures queued.None? ==> writer.Log() == old(writer.Log()) && |writer.outgoing| == old(|writer.outgoing|)
      ensures queued.Some? ==>
        var pieces := Cut(encode(m.data), writer.chunkSize);
        && queued.value <= |pieces| && writer.Log() == old(writer.Log()) + pieces[..queued.value]
        && (queued.value < |pieces| ==> |writer.outgoing| == writer.capacity)
        && |writer.outgoing| <= old(|writer.outgoing|) + queued.value
    {
      queued := None;
      match m {
        case Binary(data) =>
          if d.parses(data) {
            var n := Relay(encode(data), taken);
            queued := Some(n);
          }
        case LeaseAcquired => lease := true;
        case LeaseLost => lease := false;
        case OtherText =>
      }
    }

    /** The send loop over what the reader hands out. */
    method Send(chunks: seq<Bytes>, leaseAt: nat -> LeaseAt) returns (sent: seq<Up>, end: End)
      ensures var f := FeedAll(d, [], UntilEof(chunks)); (sent, end) == Uplink(f.frames, f.error, encode, leaseAt)
    {
      var decoder := new StreamDecoder(d);
      ghost var fed := UntilEof(chunks);
      ghost var whole := FeedAll(d, [], fed);
      ghost var frames: seq<Bytes> := [];
      var u, i := START, 0;
      assert fed[0..] == fed;
      AfterFedTwice([], [], whole);
      while i < |chunks| && chunks[i] != []
        invariant i <= |fed| && fresh(decoder) && decoder.d == d && u.going
        invariant whole == AfterFed(frames, FeedAll(d, decoder.buf, fed[i..]))
        invariant u == SendFrames(START, frames, encode, leaseAt)
      {
        assert i < |fed| && fed[i] == chunks[i];
        ghost var later := Later(d, decoder.buf, fed, i);
        FedOnce(d, decoder.buf, fed, i);
        var got, error := decoder.Feed(chunks[i]);
        ReadOnce(frames, got, later, whole, encode, leaseAt);
        u := SendAll(u, got, leaseAt);
        if !u.going {
          return u.sent, Broken;
        }
        if error.Some? {
          return u.sent, Undecodable(error.value);
        }
        frames, i := frames + got, i + 1;
      }
      assert fed[i..] == [] && frames + [] == frames;
      sent, end := u.sent, Eof;
    }

    /** The envelopes of one read. */
    method SendAll(before: Sending, frames: seq<Bytes>, leaseAt: nat -> LeaseAt) returns (u: Sending)
      requires before.going
      ensures u == SendFrames(before, frames, encode, leaseAt)
    {
      u := before;
      for i := 0 to |frames|
        invariant u == SendFrames(before, frames[..i], encode, leaseAt) && u.going
      {
        assert frames[..i + 1][..i] == frames[..i];
        assert frames == frames[..i + 1] + frames[i + 1..];
        SendAppend(before, frames[..i + 1], frames[i + 1..], encode, leaseAt);
        var at := leaseAt(u.count);
        var sent := u.sent;
        if at.Granted? || at.TimedOut? {
          sent := sent + [Acquire];
        }
        if at.Held? || at.Granted? {
          sent := sent + [Envelope(encode(frames[i]))];
        }
        u := Sending(sent, u.count + 1, at.Held? || at.Granted?);
        assert u == SendFrames(before, frames[..i + 1], encode, leaseAt);
        if !u.going {
          SendStopped(u, frames[i + 1..], encode, leaseAt);
          return;
        }
      }
      assert frames[..|frames|] == frames;
    }
  }

}
