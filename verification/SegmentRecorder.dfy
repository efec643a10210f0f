/** The consumer thread of the telemetry segment recorder (monitors/segment.py):
    a pruned ring buffer feeds the window before a segment's start, and samples
    are written until some time after its stop. */
module SegmentRecorder {
  import opened Wrappers

  datatype Config = Config(preWindow: real, postWindow: real, bufferTime: real) {
    predicate Valid() { 0.0 <= preWindow <= bufferTime && 0.0 <= postWindow }
  }

  /** The constructor's clamping of its settings. */
  function Configure(pre: real, post: real, buffer: real): (c: Config)
    ensures c.Valid()
    ensures c.preWindow == (if pre >= 0.0 then pre else 0.0) && c.postWindow == (if post >= 0.0 then post else 0.0)
    ensures buffer >= c.preWindow ==> c.bufferTime == buffer
  {
    var p := if pre < 0.0 then 0.0 else pre;
    Config(p, if post < 0.0 then 0.0 else post, if buffer < p then p else buffer)
  }

  datatype Sample = Sample(stamp: real, data: string)

  datatype Phase = Starting | Running | Stopping | Stopped | Failed

  datatype Item =
    | Telemetry(sample: Sample)
    | Lifecycle(stamp: real, phase: Phase, session: string)

  /** One turn of the consumer: what it dequeued, if anything, and when. */
  datatype Turn = Turn(item: Option<Item>, now: real)

  /** `openedAt` and `until` count the samples dequeued before the segment was
      opened, and up to its close. */
  datatype Segment = Segment(session: string, start: real, openedAt: nat, written: seq<Sample>,
                             samples: nat, closingAt: Option<real>)

  datatype Closed = Closed(segment: Segment, until: nat)

  datatype Recorder = Recorder(buffer: seq<Sample>, active: Option<Segment>, closed: seq<Closed>, seen: nat)

  const FRESH := Recorder([], None, [], 0)

  // ---------------------------------------------------------------------
  // The consumer
  // ---------------------------------------------------------------------

  function Prune(buffer: seq<Sample>, cutoff: real): seq<Sample> {
    if buffer != [] && buffer[0].stamp < cutoff then Prune(buffer[1..], cutoff) else buffer
  }

  /** The samples of a buffer that fall into the pre-window. */
  function Since(buffer: seq<Sample>, cutoff: real): seq<Sample> {
    if buffer == [] then []
    else if buffer[0].stamp >= cutoff then [buffer[0]] + Since(buffer[1..], cutoff)
    else Since(buffer[1..], cutoff)
  }

  function Write(g: Segment, xs: seq<Sample>): Segment {
    g.(written := g.written + xs, samples := g.samples + |xs|)
  }

  function Close(r: Recorder): Recorder {
    if r.active.None? then r
    else r.(active := None, closed := r.closed + [Closed(r.active.value, r.seen)])
  }

  function OnLifecycle(c: Config, r: Recorder, stamp: real, phase: Phase, session: string): Recorder {
    if phase.Starting? then
      var g := Segment(session, stamp, r.seen, [], 0, None);
      Close(r).(active := Some(Write(g, Since(r.buffer, stamp - c.preWindow))))
    else if r.active.None? || r.active.value.session != session then r
    else if phase.Running? then r
    else r.(active := Some(r.active.value.(closingAt := Some(stamp + c.postWindow))))
  }

  function OnSample(c: Config, r: Recorder, x: Sample): Recorder {
    r.(buffer := Prune(r.buffer + [x], x.stamp - c.bufferTime),
       active := if r.active.Some? then Some(Write(r.active.value, [x])) else None,
       seen := r.seen + 1)
  }

  predicate Due(r: Recorder, now: real) {
    r.active.Some? && r.active.value.closingAt.Some? && now >= r.active.value.closingAt.value
  }

  function OnItem(c: Config, r: Recorder, item: Option<Item>): Recorder {
    match item
    case None => r
    case Some(Telemetry(x)) => OnSample(c, r, x)
    case Some(Lifecycle(stamp, phase, session)) => OnLifecycle(c, r, stamp, phase, session)
  }

  function OnTurn(c: Config, r: Recorder, t: Turn): Recorder {
    var r1 := OnItem(c, r, t.item);
    if Due(r1, t.now) then Close(r1) else r1
  }

  function Run(c: Config, ts: seq<Turn>): Recorder {
    if ts == [] then FRESH else OnTurn(c, Run(c, ts[..|ts| - 1]), ts[|ts| - 1])
  }

  // ---------------------------------------------------------------------
  // The whole history
  // ---------------------------------------------------------------------

  function Stamp(i: Item): real {
    match i
    case Telemetry(x) => x.stamp
    case Lifecycle(stamp, _, _) => stamp
  }

  /** The stamp of the last item dequeued. */
  function Latest(ts: seq<Turn>): Option<real> {
    if ts == [] then None
    else if ts[|ts| - 1].item.Some? then Some(Stamp(ts[|ts| - 1].item.value))
    else Latest(ts[..|ts| - 1])
  }

  /** Items are stamped as they are queued, by a clock that never runs back. */
  predicate InOrder(ts: seq<Turn>) {
    ts == [] ||
    (var t, before := ts[|ts| - 1], ts[..|ts| - 1];
     && InOrder(before)
     && (t.item.Some? && Latest(before).Some? ==> Latest(before).value <= Stamp(t.item.value)))
  }

  function Gained(t: Turn): seq<Sample> {
    if t.item.Some? && t.item.value.Telemetry? then [t.item.value.sample] else []
  }

  /** Every sample dequeued, in order. */
  function History(ts: seq<Turn>): seq<Sample> {
    if ts == [] then [] else History(ts[..|ts| - 1]) + Gained(ts[|ts| - 1])
  }

  predicate Sorted(xs: seq<Sample>) {
    forall i, j :: 0 <= i < j < |xs| ==> xs[i].stamp <= xs[j].stamp
  }

  predicate Below(xs: seq<Sample>, bound: real) {
    forall i :: 0 <= i < |xs| ==> xs[i].stamp <= bound
  }

  /** The index of the first sample with a stamp of at least `cutoff`. */
  predicate FirstFrom(xs: seq<Sample>, cutoff: real, n: nat) {
    && n <= |xs|
    && (forall i :: 0 <= i < n ==> xs[i].stamp < cutoff)
    && (n < |xs| ==> xs[n].stamp >= cutoff)
  }

  predicate SliceFrom(c: Config, history: seq<Sample>, g: Segment, until: nat, n: nat) {
    && n <= g.openedAt <= until <= |history|
    && g.samples == |g.written|
    && FirstFrom(history[..g.openedAt], g.start - c.preWindow, n)
    && g.written == history[n..until]
  }

  /** What a segment's telemetry must be: one slice of the history, from the
      first sample in the pre-window of its start up to `until`. */
  ghost predicate IsSlice(c: Config, history: seq<Sample>, g: Segment, until: nat) {
    exists n: nat :: SliceFrom(c, history, g, until, n)
  }

  lemma {:induction false} HistoryInOrder(ts: seq<Turn>)
    requires InOrder(ts)
    ensures Sorted(History(ts))
    ensures Latest(ts).None? ==> History(ts) == []
    ensures Latest(ts).Some? ==> Below(History(ts), Latest(ts).value)
  {
    if ts != [] {
      HistoryInOrder(ts[..|ts| - 1]);
    }
  }

  /** What was dequeued before an item is no later than it. */
  lemma HistoryBefore(ts: seq<Turn>, t: Turn)
    requires InOrder(ts)
    requires t.item.Some? && Latest(ts).Some? ==> Latest(ts).value <= Stamp(t.item.value)
    ensures Sorted(History(ts)) && (t.item.Some? ==> Below(History(ts), Stamp(t.item.value)))
  {
    HistoryInOrder(ts);
  }

  lemma {:induction false} PruneIsSuffix(buffer: seq<Sample>, cutoff: real)
    ensures var n := |buffer| - |Prune(buffer, cutoff)|;
      && 0 <= n <= |buffer| && Prune(buffer, cutoff) == buffer[n..]
      && forall i :: 0 <= i < n ==> buffer[i].stamp < cutoff
  {
    if buffer != [] && buffer[0].stamp < cutoff { PruneIsSuffix(buffer[1..], cutoff); }
  }

  lemma {:induction false} SinceIsSuffix(xs: seq<Sample>, cutoff: real) returns (n: nat)
    requires Sorted(xs)
    ensures FirstFrom(xs, cutoff, n) && Since(xs, cutoff) == xs[n..]
  {
    if xs == [] || xs[0].stamp >= cutoff {
      n := 0;
      SinceAll(xs, cutoff);
    } else {
      assert forall i :: 0 <= i < |xs| - 1 ==> xs[1..][i] == xs[i + 1];
      var m := SinceIsSuffix(xs[1..], cutoff);
      n := m + 1;
      assert xs[1..][m..] == xs[n..];
    }
  }

  lemma {:induction false} SinceAll(xs: seq<Sample>, cutoff: real)
    requires forall i :: 0 <= i < |xs| ==> xs[i].stamp >= cutoff
    ensures Since(xs, cutoff) == xs
  {
    if xs != [] { SinceAll(xs[1..], cutoff); }
  }

  /** The pruned buffer is the tail of the history, and what was pruned lies
      further back than any pre-window that can still be asked for. */
  predicate BufferInv(c: Config, r: Recorder, history: seq<Sample>) {
    && |r.buffer| <= |history|
    && r.buffer == history[|history| - |r.buffer|..]
    && (forall i :: 0 <= i < |history| - |r.buffer| ==>
          history[i].stamp < history[|history| - 1].stamp - c.bufferTime)
  }

  ghost predicate Inv(c: Config, r: Recorder, history: seq<Sample>) {
    && r.seen == |history| && BufferInv(c, r, history)
    && (r.active.Some? ==> IsSlice(c, history, r.active.value, |history|))
    && (forall k :: 0 <= k < |r.closed| ==> IsSlice(c, history, r.closed[k].segment, r.closed[k].until))
  }

  lemma PrunedTooOld(c: Config, r: Recorder, history: seq<Sample>, stamp: real)
    requires c.Valid() && BufferInv(c, r, history) && Below(history, stamp)
    ensures forall i :: 0 <= i < |history| - |r.buffer| ==> history[i].stamp < stamp - c.preWindow
  {
    assert history != [] ==> history[|history| - 1].stamp <= stamp;
  }

  /** The buffer gives the same pre-window as the whole history. */
  lemma PreWindow(c: Config, r: Recorder, history: seq<Sample>, stamp: real) returns (n: nat)
    requires c.Valid() && BufferInv(c, r, history) && Sorted(history)
    requires Below(history, stamp)
    ensures FirstFrom(history, stamp - c.preWindow, n)
    ensures Since(r.buffer, stamp - c.preWindow) == history[n..]
  {
    var cut, cutoff := |history| - |r.buffer|, stamp - c.preWindow;
    TailSorted(history, cut);
    var m := SinceIsSuffix(r.buffer, cutoff);
    PrunedTooOld(c, r, history, stamp);
    FirstBehind(history, cut, cutoff, m);
    n := cut + m;
  }

  lemma FirstBehind(xs: seq<Sample>, cut: nat, cutoff: real, m: nat)
    requires cut <= |xs| && (forall i :: 0 <= i < cut ==> xs[i].stamp < cutoff)
    requires FirstFrom(xs[cut..], cutoff, m)
    ensures FirstFrom(xs, cutoff, cut + m) && xs[cut..][m..] == xs[cut + m..]
  {
    forall i | cut <= i < cut + m ensures xs[i].stamp < cutoff {
      assert xs[i] == xs[cut..][i - cut];
    }
  }

  lemma TailSorted(xs: seq<Sample>, n: nat)
    requires Sorted(xs) && n <= |xs|
    ensures Sorted(xs[n..])
  {
  }

  lemma SliceGrows(c: Config, history: seq<Sample>, g: Segment, until: nat, x: Sample)
    requires IsSlice(c, history, g, until)
    ensures IsSlice(c, history + [x], g, until)
    ensures until == |history| ==> IsSlice(c, history + [x], Write(g, [x]), until + 1)
  {
    var n: nat :| SliceFrom(c, history, g, until, n);
    var h1 := history + [x];
    assert h1[..g.openedAt] == history[..g.openedAt];
    assert h1[n..until] == history[n..until];
    assert SliceFrom(c, h1, g, until, n);
    if until == |history| {
      assert h1[n..until + 1] == history[n..until] + [x];
      assert SliceFrom(c, h1, Write(g, [x]), until + 1, n);
    }
  }

  lemma TailWith(xs: seq<Sample>, n: nat, x: Sample, m: nat)
    requires n <= |xs| && n <= m <= |xs| + 1
    ensures (xs[n..] + [x])[m - n..] == (xs + [x])[m..]
  {
  }

  lemma BufferKeeps(c: Config, r: Recorder, history: seq<Sample>, x: Sample)
    requires c.Valid() && BufferInv(c, r, history) && Sorted(history + [x])
    ensures BufferInv(c, OnSample(c, r, x), history + [x])
  {
    var all, h1 := r.buffer + [x], history + [x];
    var was := |history| - |r.buffer|;
    var now := |h1| - |OnSample(c, r, x).buffer|;
    PruneIsSuffix(all, x.stamp - c.bufferTime);
    TailWith(history, was, x, now);
    assert h1[|history|] == x;
    forall i | 0 <= i < now ensures h1[i].stamp < x.stamp - c.bufferTime {
      if i < was {
        OlderThan(c, history, x, was, i);
      } else {
        assert h1[i] == all[i - was];
      }
    }
  }

  lemma OlderThan(c: Config, history: seq<Sample>, x: Sample, was: nat, i: nat)
    requires i < was <= |history| && Sorted(history + [x])
    requires history[i].stamp < history[|history| - 1].stamp - c.bufferTime
    ensures (history + [x])[i].stamp < x.stamp - c.bufferTime
  {
    var h1 := history + [x];
    assert h1[|history| - 1] == history[|history| - 1] && h1[|history|] == x;
    assert h1[|history| - 1].stamp <= h1[|history|].stamp;
  }

  lemma SampleKeeps(c: Config, r: Recorder, history: seq<Sample>, x: Sample)
    requires c.Valid() && Inv(c, r, history) && Sorted(history + [x])
    ensures Inv(c, OnSample(c, r, x), history + [x])
  {
    var r1, h1 := OnSample(c, r, x), history + [x];
    BufferKeeps(c, r, history, x);
    if r.active.Some? { SliceGrows(c, history, r.active.value, |history|, x); }
    forall k | 0 <= k < |r1.closed| ensures IsSlice(c, h1, r1.closed[k].segment, r1.closed[k].until) {
      SliceGrows(c, history, r.closed[k].segment, r.closed[k].until, x);
    }
  }

  lemma CloseKeeps(c: Config, r: Recorder, history: seq<Sample>)
    requires Inv(c, r, history)
    ensures Inv(c, Close(r), history)
  {
  }

  lemma OpeningKeeps(c: Config, r: Recorder, history: seq<Sample>, stamp: real, session: string)
    requires c.Valid() && Inv(c, r, history) && Sorted(history)
    requires Below(history, stamp)
    ensures Inv(c, OnLifecycle(c, r, stamp, Starting, session), history)
  {
    CloseKeeps(c, r, history);
    NewSegment(c, r, history, stamp, session);
  }

  lemma NewSegment(c: Config, r: Recorder, history: seq<Sample>, stamp: real, session: string)
    requires c.Valid() && r.seen == |history| && BufferInv(c, r, history) && Sorted(history) && Below(history, stamp)
    ensures IsSlice(c, history, OnLifecycle(c, r, stamp, Starting, session).active.value, |history|)
  {
    var n := PreWindow(c, r, history, stamp);
    var g := OnLifecycle(c, r, stamp, Starting, session).active.value;
    assert history[..|history|] == history;
    assert g.written == history[n..|history|];
    assert SliceFrom(c, history, g, |history|, n);
  }

  lemma LifecycleKeeps(c: Config, r: Recorder, history: seq<Sample>, stamp: real, phase: Phase, session: string)
    requires c.Valid() && Inv(c, r, history) && Sorted(history)
    requires Below(history, stamp)
    ensures Inv(c, OnLifecycle(c, r, stamp, phase, session), history)
  {
    if phase.Starting? {
      OpeningKeeps(c, r, history, stamp, session);
    } else if r.active.Some? && r.active.value.session == session && !phase.Running? {
      var g := r.active.value;
      var n: nat :| SliceFrom(c, history, g, |history|, n);
      assert SliceFrom(c, history, g.(closingAt := Some(stamp + c.postWindow)), |history|, n);
    }
  }

  /** Over any run of the consumer: the telemetry of every segment, open or
      closed, is one contiguous slice of the samples it dequeued, each once and
      in order, from the first one in the pre-window of the segment's start
      through the last one dequeued before its close. */
  lemma {:induction false} TelemetryIsOneSlice(c: Config, ts: seq<Turn>)
    requires c.Valid() && InOrder(ts)
    ensures Inv(c, Run(c, ts), History(ts))
    decreases |ts|
  {
    if ts != [] {
      var t, before := ts[|ts| - 1], ts[..|ts| - 1];
      TelemetryIsOneSlice(c, before);
      HistoryBefore(before, t);
      TurnKeeps(c, Run(c, before), History(before), t);
    }
  }

  lemma QuietTurn(c: Config, r: Recorder, h: seq<Sample>, now: real)
    requires Inv(c, r, h)
    ensures Inv(c, OnTurn(c, r, Turn(None, now)), h)
  {
    CloseKeeps(c, r, h);
  }

  lemma SampleTurn(c: Config, r: Recorder, h: seq<Sample>, x: Sample, now: real)
    requires c.Valid() && Inv(c, r, h) && Sorted(h + [x])
    ensures Inv(c, OnTurn(c, r, Turn(Some(Telemetry(x)), now)), h + [x])
  {
    SampleKeeps(c, r, h, x);
    QuietTurn(c, OnSample(c, r, x), h + [x], now);
  }

  lemma LifecycleTurn(c: Config, r: Recorder, h: seq<Sample>, stamp: real, phase: Phase, session: string, now: real)
    requires c.Valid() && Inv(c, r, h) && Sorted(h) && Below(h, stamp)
    ensures Inv(c, OnTurn(c, r, Turn(Some(Lifecycle(stamp, phase, session)), now)), h)
  {
    LifecycleKeeps(c, r, h, stamp, phase, session);
    QuietTurn(c, OnLifecycle(c, r, stamp, phase, session), h, now);
  }

  lemma TurnKeeps(c: Config, r: Recorder, h: seq<Sample>, t: Turn)
    requires c.Valid() && Inv(c, r, h) && Sorted(h) && (t.item.Some? ==> Below(h, Stamp(t.item.value)))
    ensures Inv(c, OnTurn(c, r, t), h + Gained(t))
  {
    if t.item.None? {
      assert h + [] == h;
      QuietTurn(c, r, h, t.now);
    } else if t.item.value.Telemetry? {
      SampleTurn(c, r, h, t.item.value.sample, t.now);
    } else {
      assert h + [] == h;
      LifecycleTurn(c, r, h, t.item.value.stamp, t.item.value.phase, t.item.value.session, t.now);
    }
  }

  /** Pruning has no effect on what is recorded: any two buffer times that cover
      the pre-window produce the same segments. */
  lemma {:induction false} PruningIsInvisible(c: Config, d: Config, ts: seq<Turn>)
    requires c.Valid() && d.Valid() && InOrder(ts)
    requires c.preWindow == d.preWindow && c.postWindow == d.postWindow
    ensures Run(c, ts) == Run(d, ts).(buffer := Run(c, ts).buffer)
    decreases |ts|
  {
    if ts != [] {
      var t, before := ts[|ts| - 1], ts[..|ts| - 1];
      PruningIsInvisible(c, d, before);
      if t.item.Some? { SamePreWindow(c, d, before, t); }
      SameTurn(c, d, Run(c, before), Run(d, before), t);
    }
  }

  lemma SameItem(c: Config, d: Config, r: Recorder, q: Recorder, l: Item)
    requires r == q.(buffer := r.buffer) && c.preWindow == d.preWindow && c.postWindow == d.postWindow && l.Lifecycle?
    requires Since(r.buffer, l.stamp - c.preWindow) == Since(q.buffer, l.stamp - c.preWindow)
    ensures var r1 := OnLifecycle(c, r, l.stamp, l.phase, l.session);
      r1 == OnLifecycle(d, q, l.stamp, l.phase, l.session).(buffer := r1.buffer)
  {
  }

  lemma SameTurn(c: Config, d: Config, r: Recorder, q: Recorder, t: Turn)
    requires r == q.(buffer := r.buffer) && c.preWindow == d.preWindow && c.postWindow == d.postWindow
    requires t.item.Some? ==>
      var cutoff := Stamp(t.item.value) - c.preWindow; Since(r.buffer, cutoff) == Since(q.buffer, cutoff)
    ensures OnTurn(c, r, t) == OnTurn(d, q, t).(buffer := OnTurn(c, r, t).buffer)
  {
    if t.item.Some? && t.item.value.Lifecycle? {
      SameItem(c, d, r, q, t.item.value);
    }
  }

  lemma SamePreWindow(c: Config, d: Config, before: seq<Turn>, t: Turn)
    requires c.Valid() && d.Valid() && InOrder(before) && c.preWindow == d.preWindow && t.item.Some?
    requires Latest(before).Some? ==> Latest(before).value <= Stamp(t.item.value)
    ensures var cutoff := Stamp(t.item.value) - c.preWindow;
      Since(Run(c, before).buffer, cutoff) == Since(Run(d, before).buffer, cutoff)
  {
    TelemetryIsOneSlice(c, before);
    TelemetryIsOneSlice(d, before);
    HistoryBefore(before, t);
    SameTail(c, Run(c, before), d, Run(d, before), History(before), Stamp(t.item.value));
  }

  lemma SameTail(c: Config, r: Recorder, d: Config, q: Recorder, h: seq<Sample>, stamp: real)
    requires c.Valid() && d.Valid() && c.preWindow == d.preWindow
    requires BufferInv(c, r, h) && BufferInv(d, q, h) && Sorted(h) && Below(h, stamp)
    ensures Since(r.buffer, stamp - c.preWindow) == Since(q.buffer, stamp - c.preWindow)
  {
    var n := PreWindow(c, r, h, stamp);
    var m := PreWindow(d, q, h, stamp);
    assert n == m;
  }

  // ---------------------------------------------------------------------
  // Which segment is open
  // ---------------------------------------------------------------------

  predicate Opens(item: Option<Item>) {
    item.Some? && item.value.Lifecycle? && item.value.phase.Starting?
  }

  /** How many turns came before the latest start event. */
  function LastStart(ts: seq<Turn>): (k: Option<nat>)
    ensures k.Some? ==> k.value < |ts| && Opens(ts[k.value].item)
  {
    if ts == [] then None
    else if Opens(ts[|ts| - 1].item) then Some(|ts| - 1)
    else LastStart(ts[..|ts| - 1])
  }

  /** The open segment, if any, is that of the latest start event, and its
      pre-window counts from that event. */
  lemma {:induction false} OpenIsLatestStart(c: Config, ts: seq<Turn>)
    ensures var r := Run(c, ts);
      r.active.Some? ==>
        var k := LastStart(ts);
        && k.Some? && r.active.value.session == ts[k.value].item.value.session
        && r.active.value.start == ts[k.value].item.value.stamp
        && r.active.value.openedAt == |History(ts[..k.value])|
    decreases |ts|
  {
    if ts != [] {
      var before, t := ts[..|ts| - 1], ts[|ts| - 1];
      OpenIsLatestStart(c, before);
      SeenIsHistory(c, before);
      if Run(c, ts).active.Some? && !Opens(t.item) {
        assert before[..LastStart(before).value] == ts[..LastStart(before).value];
      }
    }
  }

  lemma {:induction false} SeenIsHistory(c: Config, ts: seq<Turn>)
    ensures Run(c, ts).seen == |History(ts)|
  {
    if ts != [] { SeenIsHistory(c, ts[..|ts| - 1]); }
  }

  // ---------------------------------------------------------------------
  // When a segment ends
  // ---------------------------------------------------------------------

  predicate Stops(phase: Phase) { phase.Stopping? || phase.Stopped? || phase.Failed? }

  /** The stamp of a session's latest stop event since the latest start of any. */
  function LastStop(ts: seq<Turn>, session: string): Option<real> {
    if ts == [] then None
    else
      var t := ts[|ts| - 1];
      if t.item.Some? && t.item.value.Lifecycle? && t.item.value.phase.Starting? then None
      else if t.item.Some? && t.item.value.Lifecycle? && t.item.value.session == session && Stops(t.item.value.phase)
      then Some(t.item.value.stamp)
      else LastStop(ts[..|ts| - 1], session)
  }

  function PostWindowEnd(c: Config, stop: Option<real>): Option<real> {
    match stop case None => None case Some(t) => Some(t + c.postWindow)
  }

  /** An open segment is due to close the post-window after its latest stop event. */
  lemma {:induction false} ClosingFollowsLastStop(c: Config, ts: seq<Turn>)
    ensures var r := Run(c, ts);
      r.active.None? || r.active.value.closingAt == PostWindowEnd(c, LastStop(ts, r.active.value.session))
  {
    if ts != [] {
      ClosingFollowsLastStop(c, ts[..|ts| - 1]);
    }
  }

  /** The stamp of an item that stops a session's run. */
  function StopIn(item: Option<Item>, session: string): Option<real> {
    if item.Some? && item.value.Lifecycle? && item.value.session == session && Stops(item.value.phase)
    then Some(item.value.stamp) else None
  }

  lemma ItemMovesClosing(c: Config, r: Recorder, item: Option<Item>)
    requires r.active.Some? && !Opens(item)
    ensures var r1 := OnItem(c, r, item); var stop := StopIn(item, r.active.value.session);
      && r1.closed == r.closed && r1.active.Some?
      && r1.active.value.closingAt == (if stop.Some? then Some(stop.value + c.postWindow) else r.active.value.closingAt)
  {
  }

  /** A turn ends the open segment exactly when it starts another, or comes no
      earlier than the post-window after the segment's latest stop event. */
  lemma EndsExactlyWhen(c: Config, ts: seq<Turn>, t: Turn)
    requires Run(c, ts).active.Some?
    ensures var stop := LastStop(ts + [t], Run(c, ts).active.value.session);
      |Run(c, ts + [t]).closed| > |Run(c, ts).closed| <==>
        Opens(t.item) || (stop.Some? && t.now >= stop.value + c.postWindow)
  {
    var r := Run(c, ts);
    assert (ts + [t])[..|ts|] == ts;
    assert Run(c, ts + [t]) == OnTurn(c, r, t);
    ClosingFollowsLastStop(c, ts);
    if !Opens(t.item) {
      ItemMovesClosing(c, r, t.item);
    }
  }

  // ---------------------------------------------------------------------
  // What is recorded of a segment that ends
  // ---------------------------------------------------------------------

  /** A segment belongs to the start event of turn `k`. */
  predicate StartedAt(g: Segment, ts: seq<Turn>, k: nat) {
    && k < |ts| && Opens(ts[k].item)
    && g.session == ts[k].item.value.session && g.start == ts[k].item.value.stamp
    && g.openedAt == |History(ts[..k])|
  }

  /** A turn closes the open segment as it stands at the end of it, or nothing. */
  lemma TurnCloses(c: Config, r: Recorder, t: Turn)
    ensures var r1 := OnTurn(c, r, t);
      r1.closed == r.closed ||
      (r.active.Some? && |r1.closed| == |r.closed| + 1 && r1.closed[..|r.closed|] == r.closed &&
       var closed := r1.closed[|r.closed|];
       && closed.segment.session == r.active.value.session && closed.segment.start == r.active.value.start
       && closed.segment.openedAt == r.active.value.openedAt
       && closed.until == r.seen + |Gained(t)| == r1.seen)
    ensures OnTurn(c, r, t).seen == r.seen + |Gained(t)|
  {
    if Opens(t.item) {
      assert OnItem(c, r, t.item).active.value.closingAt.None?;
    }
  }

  /** A turn that ends a segment adds one record and leaves the earlier ones
      alone.  The record is that of the latest start event before the turn, and
      reaches up to the last sample dequeued by the end of it. */
  lemma EndingRecords(c: Config, ts: seq<Turn>, t: Turn)
    ensures var r, r1 := Run(c, ts), Run(c, ts + [t]);
      r1.closed == r.closed ||
      (|r1.closed| == |r.closed| + 1 && r1.closed[..|r.closed|] == r.closed &&
       LastStart(ts).Some? && StartedAt(r1.closed[|r.closed|].segment, ts, LastStart(ts).value) &&
       r1.closed[|r.closed|].until == |History(ts + [t])|)
  {
    assert (ts + [t])[..|ts|] == ts;
    TurnCloses(c, Run(c, ts), t);
    OpenIsLatestStart(c, ts);
    SeenIsHistory(c, ts + [t]);
  }

  /** A record is of the start event of turn `k`, the latest before turn `j`,
      which added it, and reaches up to the last sample dequeued by then. */
  predicate RecordedAt(c: Config, ts: seq<Turn>, record: Closed, n: nat, k: nat, j: nat) {
    && k < j < |ts| && LastStart(ts[..j]) == Some(k) && StartedAt(record.segment, ts, k)
    && record.until == |History(ts[..j + 1])|
    && |Run(c, ts[..j]).closed| == n && |Run(c, ts[..j + 1]).closed| == n + 1
  }

  lemma RecordedEarlier(c: Config, before: seq<Turn>, t: Turn, record: Closed, n: nat, k: nat, j: nat)
    requires RecordedAt(c, before, record, n, k, j)
    ensures RecordedAt(c, before + [t], record, n, k, j)
  {
    var ts := before + [t];
    assert ts[..k] == before[..k] && ts[..j] == before[..j] && ts[..j + 1] == before[..j + 1];
  }

  lemma RecordedNow(c: Config, before: seq<Turn>, t: Turn)
    requires Run(c, before + [t]).closed != Run(c, before).closed
    ensures LastStart(before).Some?
    ensures var n := |Run(c, before).closed|; var r1 := Run(c, before + [t]);
      |r1.closed| == n + 1 && RecordedAt(c, before + [t], r1.closed[n], n, LastStart(before).value, |before|)
  {
    EndingRecords(c, before, t);
    var ts, k := before + [t], LastStart(before).value;
    assert ts[..k] == before[..k] && ts[..|before|] == before && ts[..|before| + 1] == ts;
  }

  /** Every record of a run is of one start event and one turn that ended it. */
  lemma {:induction false} RecordsAreAccounted(c: Config, ts: seq<Turn>, n: nat) returns (k: nat, j: nat)
    requires n < |Run(c, ts).closed|
    ensures RecordedAt(c, ts, Run(c, ts).closed[n], n, k, j)
    decreases |ts|
  {
    var before, t := ts[..|ts| - 1], ts[|ts| - 1];
    assert ts == before + [t];
    EndingRecords(c, before, t);
    if n < |Run(c, before).closed| {
      k, j := RecordsAreAccounted(c, before, n);
      assert Run(c, ts).closed[n] == Run(c, before).closed[n];
      RecordedEarlier(c, before, t, Run(c, before).closed[n], n, k, j);
    } else {
      RecordedNow(c, before, t);
      k, j := LastStart(before).value, |before|;
    }
  }

  /** The segment still open when the thread is told to stop is recorded likewise. */
  lemma LastRecord(c: Config, ts: seq<Turn>)
    ensures var r := Run(c, ts); var closed := Close(r).closed;
      if r.active.None? then closed == r.closed
      else
        && |closed| == |r.closed| + 1 && closed[..|r.closed|] == r.closed
        && LastStart(ts).Some? && StartedAt(closed[|r.closed|].segment, ts, LastStart(ts).value)
        && closed[|r.closed|].until == |History(ts)|
  {
    OpenIsLatestStart(c, ts);
    SeenIsHistory(c, ts);
  }

  /** Together: the telemetry of a closed segment runs from the first sample in
      the pre-window of its start event through the last one dequeued by the turn
      that ended it. */
  lemma ClosedTelemetry(c: Config, ts: seq<Turn>, n: nat) returns (k: nat, j: nat, first: nat)
    requires c.Valid() && InOrder(ts) && n < |Run(c, ts).closed|
    ensures RecordedAt(c, ts, Run(c, ts).closed[n], n, k, j)
    ensures FirstFrom(History(ts[..k]), ts[k].item.value.stamp - c.preWindow, first)
    ensures first <= |History(ts[..j + 1])| && Run(c, ts).closed[n].segment.written == History(ts[..j + 1])[first..]
    ensures Run(c, ts).closed[n].segment.samples == |Run(c, ts).closed[n].segment.written|
  {
    k, j := RecordsAreAccounted(c, ts, n);
    TelemetryIsOneSlice(c, ts);
    var h, upTo, closed := History(ts), History(ts[..j + 1]), Run(c, ts).closed[n];
    HistoryPrefix(ts, k);
    HistoryPrefix(ts, j + 1);
    first := SliceOfPrefix(c, h, closed, History(ts[..k]), upTo);
  }

  lemma SliceOfPrefix(c: Config, h: seq<Sample>, closed: Closed, earlier: seq<Sample>, upTo: seq<Sample>)
    returns (first: nat)
    requires IsSlice(c, h, closed.segment, closed.until)
    requires |upTo| == closed.until <= |h| && upTo == h[..closed.until]
    requires |earlier| == closed.segment.openedAt <= |h| && earlier == h[..closed.segment.openedAt]
    ensures FirstFrom(earlier, closed.segment.start - c.preWindow, first)
    ensures first <= |upTo| && closed.segment.written == upTo[first..]
    ensures closed.segment.samples == |closed.segment.written|
  {
    first :| SliceFrom(c, h, closed.segment, closed.until, first);
    assert h[first..closed.until] == h[..closed.until][first..];
  }

  lemma {:induction false} HistoryPrefix(ts: seq<Turn>, n: nat)
    requires n <= |ts|
    ensures |History(ts[..n])| <= |History(ts)| && History(ts[..n]) == History(ts)[..|History(ts[..n])|]
    decreases |ts|
  {
    if n == |ts| {
      assert ts[..n] == ts;
    } else {
      var before := ts[..|ts| - 1];
      HistoryPrefix(before, n);
      assert before[..n] == ts[..n];
    }
  }

  // ---------------------------------------------------------------------
  // The thread
  // ---------------------------------------------------------------------

  /** The consumer's loop; the segment still open when it is told to stop and
      the queue is empty gets closed. */
  method Consume(c: Config, ts: seq<Turn>) returns (segments: seq<Closed>)
    ensures segments == Close(Run(c, ts)).closed
  {
    var buffer: seq<Sample>, active: Option<Segment>, seen := [], None, 0;
    segments := [];
    for i := 0 to |ts|
      invariant Run(c, ts[..i]) == Recorder(buffer, active, segments, seen)
    {
      assert ts[..i + 1][..i] == ts[..i];
      ghost var before := Run(c, ts[..i]);
      match ts[i].item {
        case None =>
        case Some(Lifecycle(stamp, phase, session)) =>
          if phase.Starting? {
            if active.Some? {
              segments := segments + [Closed(active.value, seen)];
            }
            var written := Open(buffer, stamp - c.preWindow);
            assert [] + written == written;
            active := Some(Segment(session, stamp, seen, written, |written|, None));
          } else if active.Some? && active.value.session == session && !phase.Running? {
            active := Some(active.value.(closingAt := Some(stamp + c.postWindow)));
          }
        case Some(Telemetry(x)) =>
          buffer := PopOld(buffer + [x], x.stamp - c.bufferTime);
          if active.Some? {
            active := Some(active.value.(written := active.value.written + [x], samples := active.value.samples + 1));
          }
          seen := seen + 1;
      }
      assert Recorder(buffer, active, segments, seen) == OnItem(c, before, ts[i].item);
      if active.Some? && active.value.closingAt.Some? && ts[i].now >= active.value.closingAt.value {
        segments := segments + [Closed(active.value, seen)];
        active := None;
      }
    }
    assert ts[..|ts|] == ts;
    if active.Some? {
      segments := segments + [Closed(active.value, seen)];
    }
  }

  method PopOld(from: seq<Sample>, cutoff: real) returns (buffer: seq<Sample>)
    ensures buffer == Prune(from, cutoff)
  {
    buffer := from;
    while buffer != [] && buffer[0].stamp < cutoff
      invariant Prune(buffer, cutoff) == Prune(from, cutoff)
      decreases |buffer|
    {
      buffer := buffer[1..];
    }
  }

  method Open(buffer: seq<Sample>, cutoff: real) returns (written: seq<Sample>)
    ensures written == Since(buffer, cutoff)
  {
    written := [];
    assert buffer[0..] == buffer;
    for i := 0 to |buffer|
      invariant written + Since(buffer[i..], cutoff) == Since(buffer, cutoff)
    {
      assert buffer[i..][0] == buffer[i] && buffer[i..][1..] == buffer[i + 1..];
      ghost var rest := Since(buffer[i + 1..], cutoff);
      if buffer[i].stamp >= cutoff {
        assert written + ([buffer[i]] + rest) == (written + [buffer[i]]) + rest;
        written := written + [buffer[i]];
      }
    }
  }
}
