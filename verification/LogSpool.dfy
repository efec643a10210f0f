/** The bounded, durable queue of log events and its uploader (log_upload.py).
    Row ids are SQLite's AUTOINCREMENT: from 1, never reused. */
module LogSpool {

  type Payload = string

  datatype Row = Row(id: nat, payload: Payload, attempts: nat)
  datatype DeadRow = DeadRow(payload: Payload, attempts: nat, reason: string)

  datatype Spool = Spool(
    maxEvents: nat,
    maxAttempts: nat,
    nextId: nat,
    rows: seq<Row>,          // in id order
    dead: seq<DeadRow>,      // oldest first
    dropped: nat,
    rejected: nat,
    deadDropped: nat)

  function Empty(maxEvents: nat, maxAttempts: nat): Spool {
    Spool(maxEvents, maxAttempts, 1, [], [], 0, 0, 0)
  }

  // ---------------------------------------------------------------------
  // Row selections: the WHERE clauses
  // ---------------------------------------------------------------------

  function Ids(rows: seq<Row>): set<nat> {
    if rows == [] then {} else {rows[0].id} + Ids(rows[1..])
  }

  function Without(rows: seq<Row>, ids: set<nat>): seq<Row> {
    if rows == [] then []
    else if rows[0].id in ids then Without(rows[1..], ids)
    else [rows[0]] + Without(rows[1..], ids)
  }

  function Within(rows: seq<Row>, ids: set<nat>): seq<Row> {
    if rows == [] then []
    else if rows[0].id in ids then [rows[0]] + Within(rows[1..], ids)
    else Within(rows[1..], ids)
  }

  function Bump(rows: seq<Row>, ids: set<nat>): seq<Row> {
    if rows == [] then []
    else
      var r := rows[0];
      [if r.id in ids then r.(attempts := r.attempts + 1) else r] + Bump(rows[1..], ids)
  }

  function Exhausted(rows: seq<Row>, limit: nat): seq<Row> {
    if rows == [] then []
    else if rows[0].attempts >= limit then [rows[0]] + Exhausted(rows[1..], limit)
    else Exhausted(rows[1..], limit)
  }

  function Buried(rows: seq<Row>, reason: string): (ds: seq<DeadRow>)
    ensures |ds| == |rows|
  {
    seq(|rows|, i requires 0 <= i < |rows| => DeadRow(rows[i].payload, rows[i].attempts, reason))
  }

  function ToSet(ids: seq<nat>): set<nat> { set i | i in ids }

  function Excess(count: nat, limit: nat): (n: nat)
    ensures n <= count
  {
    if count > limit then count - limit else 0
  }

  // ---------------------------------------------------------------------
  // Operations
  // ---------------------------------------------------------------------

  datatype Op =
    | Add(payload: Payload)
    | Ack(ids: seq<nat>)
    | Fail(ids: seq<nat>)
    | Reject(ids: seq<nat>, reason: string)

  function Peek(s: Spool, limit: nat): seq<Row> {
    if limit <= |s.rows| then s.rows[..limit] else s.rows
  }

  /** _to_dead_letter, with its limit. */
  function Bury(s: Spool, moved: seq<Row>, reason: string): Spool {
    var dead := s.dead + Buried(moved, reason);
    var n := Excess(|dead|, s.maxEvents);
    s.(rows := Without(s.rows, Ids(moved)), dead := dead[n..],
       rejected := s.rejected + |moved|, deadDropped := s.deadDropped + n)
  }

  function Step(s: Spool, op: Op): Spool {
    match op
    case Add(p) =>
      var rows := s.rows + [Row(s.nextId, p, 0)];
      var n := Excess(|rows|, s.maxEvents);
      s.(nextId := s.nextId + 1, rows := rows[n..], dropped := s.dropped + n)
    case Ack(ids) => s.(rows := Without(s.rows, ToSet(ids)))
    case Fail(ids) =>
      if ids == [] then s
      else
        var s1 := s.(rows := Bump(s.rows, ToSet(ids)));
        Bury(s1, Exhausted(s1.rows, s.maxAttempts), "max_attempts")
    case Reject(ids, reason) =>
      if ids == [] then s else Bury(s, Within(s.rows, ToSet(ids)), reason)
  }

  function Run(s: Spool, ops: seq<Op>): Spool
    decreases |ops|
  {
    if ops == [] then s else Run(Step(s, ops[0]), ops[1..])
  }

  /** In strictly increasing id order. */
  predicate Sorted(rows: seq<Row>) {
    rows == [] || (Sorted(rows[1..]) && forall i :: i in Ids(rows[1..]) ==> rows[0].id < i)
  }

  predicate Inv(s: Spool) {
    && s.maxEvents >= 1 && s.maxAttempts >= 1 && s.nextId >= 1
    && Sorted(s.rows)
    && (forall r :: r in s.rows ==> 1 <= r.id < s.nextId && r.attempts < s.maxAttempts)
    && |s.rows| <= s.maxEvents && |s.dead| <= s.maxEvents
    && s.rejected == |s.dead| + s.deadDropped
  }

  // ---------------------------------------------------------------------
  // Facts about selections
  // ---------------------------------------------------------------------

  lemma {:induction false} IdsMembers(rows: seq<Row>)
    ensures forall r :: r in rows ==> r.id in Ids(rows)
    ensures forall i :: i in Ids(rows) ==> exists r :: r in rows && r.id == i
  {
    if rows != [] {
      IdsMembers(rows[1..]);
      assert forall r :: r in rows <==> r == rows[0] || r in rows[1..];
    }
  }

  lemma {:induction false} IdsConcat(a: seq<Row>, b: seq<Row>)
    ensures Ids(a + b) == Ids(a) + Ids(b)
  {
    if a == [] {
      assert a + b == b;
    } else {
      assert (a + b)[1..] == a[1..] + b;
      IdsConcat(a[1..], b);
    }
  }

  lemma {:induction false} IdsDistinct(rows: seq<Row>)
    requires Sorted(rows)
    ensures |Ids(rows)| == |rows|
  {
    if rows != [] { IdsDistinct(rows[1..]); }
  }

  lemma {:induction false} WithoutMembers(rows: seq<Row>, ids: set<nat>)
    ensures forall r :: r in Without(rows, ids) <==> r in rows && r.id !in ids
  {
    if rows != [] {
      WithoutMembers(rows[1..], ids);
      assert forall r :: r in rows <==> r == rows[0] || r in rows[1..];
    }
  }

  lemma {:induction false} WithinMembers(rows: seq<Row>, ids: set<nat>)
    ensures forall r :: r in Within(rows, ids) <==> r in rows && r.id in ids
  {
    if rows != [] {
      WithinMembers(rows[1..], ids);
      assert forall r :: r in rows <==> r == rows[0] || r in rows[1..];
    }
  }

  lemma {:induction false} SelectedIds(rows: seq<Row>, ids: set<nat>)
    ensures |Without(rows, ids)| + |Within(rows, ids)| == |rows|
    ensures Ids(Without(rows, ids)) == Ids(rows) - ids
    ensures Ids(Within(rows, ids)) == Ids(rows) * ids
  {
    if rows != [] { SelectedIds(rows[1..], ids); }
  }

  lemma {:induction false} SelectionsSorted(rows: seq<Row>, ids: set<nat>)
    requires Sorted(rows)
    ensures Sorted(Without(rows, ids)) && Sorted(Within(rows, ids))
  {
    if rows != [] {
      SelectionsSorted(rows[1..], ids);
      SelectedIds(rows[1..], ids);
    }
  }

  lemma {:induction false} SortedJoin(a: seq<Row>, b: seq<Row>)
    requires Sorted(a) && Sorted(b) && forall i, j :: i in Ids(a) && j in Ids(b) ==> i < j
    ensures Sorted(a + b)
  {
    if a == [] {
      assert a + b == b;
    } else {
      assert (a + b)[1..] == a[1..] + b;
      assert a[0].id in Ids(a) && forall i :: i in Ids(a[1..]) ==> i in Ids(a);
      SortedJoin(a[1..], b);
      IdsConcat(a[1..], b);
    }
  }

  lemma {:induction false} SortedSplit(a: seq<Row>, b: seq<Row>)
    requires Sorted(a + b)
    ensures Sorted(a) && Sorted(b) && Ids(a) !! Ids(b)
  {
    if a == [] {
      assert a + b == b;
    } else {
      assert (a + b)[1..] == a[1..] + b;
      SortedSplit(a[1..], b);
      IdsConcat(a[1..], b);
    }
  }

  lemma {:induction false} Bumped(rows: seq<Row>, ids: set<nat>)
    ensures |Bump(rows, ids)| == |rows|
    ensures forall i :: 0 <= i < |rows| ==>
      Bump(rows, ids)[i] == (if rows[i].id in ids then rows[i].(attempts := rows[i].attempts + 1) else rows[i])
    ensures Ids(Bump(rows, ids)) == Ids(rows)
  {
    if rows != [] {
      Bumped(rows[1..], ids);
    }
  }

  lemma {:induction false} ExhaustedRows(rows: seq<Row>, limit: nat)
    ensures forall r :: r in Exhausted(rows, limit) <==> r in rows && r.attempts >= limit
    ensures Ids(Exhausted(rows, limit)) <= Ids(rows)
  {
    if rows != [] {
      ExhaustedRows(rows[1..], limit);
      assert forall r :: r in rows <==> r == rows[0] || r in rows[1..];
    }
  }

  lemma {:induction false} ExhaustedByIds(rows: seq<Row>, limit: nat)
    requires Sorted(rows)
    ensures Within(rows, Ids(Exhausted(rows, limit))) == Exhausted(rows, limit)
  {
    if rows != [] {
      var tail := rows[1..];
      ExhaustedByIds(tail, limit);
      ExhaustedRows(tail, limit);
      IdsMembers(tail);
      assert rows[0].id !in Ids(tail);
      WithinSame(tail, Ids(Exhausted(rows, limit)), Ids(Exhausted(tail, limit)));
    }
  }

  lemma {:induction false} WithinSame(rows: seq<Row>, a: set<nat>, b: set<nat>)
    requires forall r :: r in rows ==> (r.id in a <==> r.id in b)
    ensures Within(rows, a) == Within(rows, b)
  {
    if rows != [] { WithinSame(rows[1..], a, b); }
  }

  lemma {:induction false} WithoutTwice(rows: seq<Row>, a: set<nat>, b: set<nat>)
    ensures Without(Without(rows, a), b) == Without(rows, a + b)
  {
    if rows != [] { WithoutTwice(rows[1..], a, b); }
  }

  lemma {:induction false} WithoutNone(rows: seq<Row>)
    ensures Without(rows, {}) == rows
  {
    if rows != [] { WithoutNone(rows[1..]); }
  }

  // ---------------------------------------------------------------------
  // What each operation keeps
  // ---------------------------------------------------------------------

  /** The rows a Fail or Reject moves, and the table it moves them from. */
  function Moving(s: Spool, op: Op): (seq<Row>, seq<Row>)
    requires op.Fail? || op.Reject?
  {
    if op.Fail? then
      var rows := Bump(s.rows, ToSet(op.ids));
      (rows, Exhausted(rows, s.maxAttempts))
    else (s.rows, Within(s.rows, ToSet(op.ids)))
  }

  /** What Fail and Reject rely on about the rows they move. */
  predicate MovesWell(s: Spool, rows: seq<Row>, moved: seq<Row>) {
    && Sorted(rows) && Ids(rows) == Ids(s.rows) && |rows| == |s.rows|
    && Within(rows, Ids(moved)) == moved && Ids(moved) <= Ids(rows)
    && (forall r :: r in rows ==> 1 <= r.id < s.nextId && r.attempts <= s.maxAttempts)
  }

  lemma {:induction false} BumpedSorted(rows: seq<Row>, ids: set<nat>)
    requires Sorted(rows)
    ensures Sorted(Bump(rows, ids))
  {
    if rows != [] {
      BumpedSorted(rows[1..], ids);
      Bumped(rows[1..], ids);
    }
  }

  lemma {:induction false} BumpedBounds(rows: seq<Row>, ids: set<nat>, nextId: nat, limit: nat)
    requires forall r :: r in rows ==> 1 <= r.id < nextId && r.attempts < limit
    ensures forall r :: r in Bump(rows, ids) ==> 1 <= r.id < nextId && r.attempts <= limit
  {
    if rows != [] {
      BumpedBounds(rows[1..], ids, nextId, limit);
      assert rows[0] in rows;
    }
  }

  lemma MovingRows(s: Spool, op: Op)
    requires Inv(s) && (op.Fail? || op.Reject?)
    ensures MovesWell(s, Moving(s, op).0, Moving(s, op).1)
  {
    var ids := ToSet(op.ids);
    if op.Fail? {
      BumpedSorted(s.rows, ids);
      BumpedBounds(s.rows, ids, s.nextId, s.maxAttempts);
      Bumped(s.rows, ids);
      ExhaustedRows(Bump(s.rows, ids), s.maxAttempts);
      ExhaustedByIds(Bump(s.rows, ids), s.maxAttempts);
    } else {
      SelectedIds(s.rows, ids);
      WithinOwnIds(s.rows, ids);
    }
  }

  lemma WithinOwnIds(rows: seq<Row>, ids: set<nat>)
    ensures Within(rows, Ids(Within(rows, ids))) == Within(rows, ids)
  {
    SelectedIds(rows, ids);
    IdsMembers(rows);
    WithinSame(rows, ids, Ids(rows) * ids);
  }

  /** Only rows with attempts to spare stay behind. */
  lemma StayingRows(s: Spool, op: Op, r: Row)
    requires Inv(s) && (op.Fail? || op.Reject?)
    requires r in Without(Moving(s, op).0, Ids(Moving(s, op).1))
    ensures 1 <= r.id < s.nextId && r.attempts < s.maxAttempts && r.id in Ids(s.rows)
  {
    MovingRows(s, op);
    var (rows, moved) := Moving(s, op);
    WithoutMembers(rows, Ids(moved));
    IdsMembers(rows);
    IdsMembers(moved);
    if op.Fail? { ExhaustedRows(rows, s.maxAttempts); }
  }

  lemma BurialKeeps(s: Spool, op: Op)
    requires Inv(s) && (op.Fail? || op.Reject?)
    ensures Inv(Step(s, op))
  {
    if op.ids != [] {
      MovingRows(s, op);
      var (rows, moved) := Moving(s, op);
      SelectedIds(rows, Ids(moved));
      SelectionsSorted(rows, Ids(moved));
      forall r | r in Step(s, op).rows ensures 1 <= r.id < s.nextId && r.attempts < s.maxAttempts {
        StayingRows(s, op, r);
      }
    }
  }

  lemma AckKeeps(s: Spool, ids: seq<nat>)
    requires Inv(s)
    ensures Inv(Step(s, Ack(ids)))
  {
    SelectedIds(s.rows, ToSet(ids));
    WithoutMembers(s.rows, ToSet(ids));
    SelectionsSorted(s.rows, ToSet(ids));
  }

  function Appended(s: Spool, p: Payload): seq<Row> {
    s.rows + [Row(s.nextId, p, 0)]
  }

  lemma AppendedRows(s: Spool, p: Payload)
    requires Inv(s)
    ensures Sorted(Appended(s, p)) && Ids(Appended(s, p)) == Ids(s.rows) + {s.nextId}
    ensures forall r :: r in Appended(s, p) ==> 1 <= r.id <= s.nextId && r.attempts < s.maxAttempts
  {
    var last := [Row(s.nextId, p, 0)];
    IdsConcat(s.rows, last);
    assert Ids(last) == {s.nextId};
    IdsMembers(s.rows);
    SortedJoin(s.rows, last);
  }

  /** A sorted table cut in two. */
  lemma Cut(rows: seq<Row>, n: nat)
    requires Sorted(rows) && n <= |rows|
    ensures Sorted(rows[..n]) && Sorted(rows[n..])
    ensures Ids(rows[..n]) + Ids(rows[n..]) == Ids(rows) && Ids(rows[..n]) !! Ids(rows[n..])
    ensures |Ids(rows[..n])| == n
    ensures forall r :: r in rows[n..] ==> r in rows
  {
    assert rows[..n] + rows[n..] == rows;
    IdsConcat(rows[..n], rows[n..]);
    SortedSplit(rows[..n], rows[n..]);
    IdsDistinct(rows[..n]);
  }

  lemma AddKeeps(s: Spool, p: Payload)
    requires Inv(s)
    ensures Inv(Step(s, Add(p)))
  {
    AppendedRows(s, p);
    Cut(Appended(s, p), Excess(|Appended(s, p)|, s.maxEvents));
  }

  lemma StepKeeps(s: Spool, op: Op)
    requires Inv(s)
    ensures Inv(Step(s, op))
  {
    match op
    case Add(p) => AddKeeps(s, p);
    case Ack(ids) => AckKeeps(s, ids);
    case _ => BurialKeeps(s, op);
  }

  // ---------------------------------------------------------------------
  // Conservation
  // ---------------------------------------------------------------------

  /** The ids that left the spool, by the kind of operation that took them. */
  datatype Fates = Fates(acked: set<nat>, overflowed: set<nat>, buried: set<nat>)

  function Left(s: Spool, op: Op): set<nat> {
    Ids(s.rows) + (if op.Add? then {s.nextId} else {}) - Ids(Step(s, op).rows)
  }

  function Credit(f: Fates, op: Op, gone: set<nat>): Fates {
    match op
    case Add(_) => f.(overflowed := f.overflowed + gone)
    case Ack(_) => f.(acked := f.acked + gone)
    case _ => f.(buried := f.buried + gone)
  }

  function FatesAfter(s: Spool, f: Fates, ops: seq<Op>): Fates
    decreases |ops|
  {
    if ops == [] then f else FatesAfter(Step(s, ops[0]), Credit(f, ops[0], Left(s, ops[0])), ops[1..])
  }

  /** The numbers from 1 up to but not including n. */
  function UpTo(n: nat): (r: set<nat>)
    ensures forall i :: i in r <==> 1 <= i < n
    ensures n >= 1 ==> |r| == n - 1
  {
    if n <= 1 then {} else UpTo(n - 1) + {n - 1}
  }

  /** Four sets without common members that make up `all`. */
  predicate Parts(a: set<nat>, b: set<nat>, c: set<nat>, d: set<nat>, all: set<nat>) {
    && a + b + c + d == all
    && a !! b && a !! c && a !! d && b !! c && b !! d && c !! d
  }

  predicate Accounted(s: Spool, f: Fates) {
    && Parts(Ids(s.rows), f.acked, f.overflowed, f.buried, UpTo(s.nextId))
    && s.dropped == |f.overflowed| && s.rejected == |f.buried|
  }

  lemma AddMoves(s: Spool, p: Payload)
    requires Inv(s)
    ensures var s1 := Step(s, Add(p));
      && Ids(s1.rows) == (Ids(s.rows) + {s.nextId}) - Left(s, Add(p)) && Left(s, Add(p)) <= Ids(s.rows) + {s.nextId}
      && s1.dropped == s.dropped + |Left(s, Add(p))| && s1.rejected == s.rejected
  {
    var n := Excess(|Appended(s, p)|, s.maxEvents);
    AppendedRows(s, p);
    Cut(Appended(s, p), n);
    Complement(Ids(Appended(s, p)[..n]), Ids(Appended(s, p)[n..]));
    assert Step(s, Add(p)).rows == Appended(s, p)[n..];
  }

  /** A full spool gives up its oldest events, and the newest is always in. */
  lemma OverflowTakesOldest(s: Spool, p: Payload)
    requires Inv(s)
    ensures var s1 := Step(s, Add(p));
      && (forall i, j :: i in Left(s, Add(p)) && j in Ids(s1.rows) ==> i < j)
      && s.nextId in Ids(s1.rows)
      && |s1.rows| == (if |s.rows| < s.maxEvents then |s.rows| + 1 else s.maxEvents)
      && (|s.rows| < s.maxEvents ==> Left(s, Add(p)) == {})
  {
    var rows := Appended(s, p);
    var n := Excess(|rows|, s.maxEvents);
    AppendedRows(s, p);
    assert rows == rows[..n] + rows[n..];
    OldestApart(rows[..n], rows[n..]);
    assert n == 0 ==> rows[n..] == rows;
  }

  lemma OldestApart(gone: seq<Row>, kept: seq<Row>)
    requires Sorted(gone + kept) && kept != []
    ensures forall i, j :: i in Ids(gone + kept) && i !in Ids(kept) && j in Ids(kept) ==> i < j
    ensures kept[|kept| - 1].id in Ids(kept)
  {
    SortedApart(gone, kept);
    IdsConcat(gone, kept);
    LastId(kept);
  }

  lemma OldestFirst(rows: seq<Row>, n: nat)
    requires Sorted(rows) && n <= |rows|
    ensures Ids(rows[..n]) <= Ids(rows) && |Ids(rows[..n])| == n
    ensures forall i, j :: i in Ids(rows[..n]) && j in Ids(rows) && j !in Ids(rows[..n]) ==> i < j
  {
    var front, back := rows[..n], rows[n..];
    assert rows == front + back;
    SortedSplit(front, back);
    IdsDistinct(front);
    FrontFirst(front, back);
  }

  lemma FrontFirst(a: seq<Row>, b: seq<Row>)
    requires Sorted(a + b)
    ensures Ids(a) <= Ids(a + b)
    ensures forall i, j :: i in Ids(a) && j in Ids(a + b) && j !in Ids(a) ==> i < j
  {
    SortedApart(a, b);
    IdsConcat(a, b);
  }

  lemma {:induction false} LastId(rows: seq<Row>)
    requires rows != []
    ensures rows[|rows| - 1].id in Ids(rows)
  {
    if |rows| > 1 { LastId(rows[1..]); }
  }

  lemma {:induction false} SortedApart(a: seq<Row>, b: seq<Row>)
    requires Sorted(a + b)
    ensures forall i, j :: i in Ids(a) && j in Ids(b) ==> i < j
  {
    if a != [] {
      assert (a + b)[1..] == a[1..] + b;
      SortedApart(a[1..], b);
      IdsConcat(a[1..], b);
    }
  }

  lemma Complement(a: set<nat>, b: set<nat>)
    requires a !! b
    ensures (a + b) - b == a
  {
  }

  lemma RemovalMoves(s: Spool, op: Op)
    requires Inv(s) && !op.Add?
    ensures var s1 := Step(s, op);
      && Left(s, op) <= Ids(s.rows) && Ids(s1.rows) == Ids(s.rows) - Left(s, op)
      && s1.dropped == s.dropped && s1.nextId == s.nextId
      && s1.rejected == s.rejected + (if op.Ack? then 0 else |Left(s, op)|)
      && (op.Ack? ==> Left(s, op) == Ids(s.rows) * ToSet(op.ids))
  {
    if op.Ack? {
      SelectedIds(s.rows, ToSet(op.ids));
      Difference(Ids(s.rows), ToSet(op.ids));
    } else if op.ids != [] {
      BurialMoves(s, op);
    }
  }

  lemma Difference(a: set<nat>, b: set<nat>)
    ensures a - (a - b) == a * b && a - b == a - (a * b)
  {
  }

  lemma DifferenceOfSubset(a: set<nat>, b: set<nat>)
    requires b <= a
    ensures a - (a - b) == b && a * b == b
  {
  }

  lemma MovedIds(rows: seq<Row>, moved: seq<Row>)
    requires Sorted(rows) && Within(rows, Ids(moved)) == moved && Ids(moved) <= Ids(rows)
    ensures |Ids(moved)| == |moved|
    ensures Ids(Without(rows, Ids(moved))) == Ids(rows) - Ids(moved)
    ensures Ids(rows) - (Ids(rows) - Ids(moved)) == Ids(moved)
  {
    SelectedIds(rows, Ids(moved));
    SelectionsSorted(rows, Ids(moved));
    IdsDistinct(moved);
    DifferenceOfSubset(Ids(rows), Ids(moved));
  }

  lemma BurialMoves(s: Spool, op: Op)
    requires Inv(s) && (op.Fail? || op.Reject?) && op.ids != []
    ensures var moved := Moving(s, op).1;
      && Left(s, op) == Ids(moved) && Ids(moved) <= Ids(s.rows) && |Ids(moved)| == |moved|
      && Ids(Step(s, op).rows) == Ids(s.rows) - Ids(moved)
  {
    MovingRows(s, op);
    MovedIds(Moving(s, op).0, Moving(s, op).1);
  }

  /** Moving ids out of one part of a partition and into another. */
  lemma Transfer(a: set<nat>, gone: set<nat>, b: set<nat>, c: set<nat>, d: set<nat>, all: set<nat>)
    requires Parts(a, b, c, d, all) && gone <= a
    ensures Parts(a - gone, b + gone, c, d, all) && |b + gone| == |b| + |gone|
  {
    assert b !! gone;
  }

  lemma Rotate(a: set<nat>, b: set<nat>, c: set<nat>, d: set<nat>, all: set<nat>)
    requires Parts(a, b, c, d, all)
    ensures Parts(a, c, b, d, all) && Parts(a, d, b, c, all) && Parts(a, c, d, b, all)
  {
  }

  /** One more id, fresh to all parts. */
  lemma Extend(a: set<nat>, b: set<nat>, c: set<nat>, d: set<nat>, all: set<nat>, n: nat)
    requires Parts(a, b, c, d, all) && n !in all
    ensures Parts(a + {n}, b, c, d, all + {n})
  {
  }

  lemma UpToNext(n: nat)
    requires n >= 1
    ensures UpTo(n + 1) == UpTo(n) + {n} && n !in UpTo(n)
  {
  }

  lemma AddParts(a: set<nat>, gone: set<nat>, b: set<nat>, c: set<nat>, d: set<nat>, n: nat)
    requires n >= 1 && Parts(a, b, c, d, UpTo(n)) && gone <= a + {n}
    ensures Parts((a + {n}) - gone, b, c + gone, d, UpTo(n + 1)) && |c + gone| == |c| + |gone|
  {
    UpToNext(n);
    Extend(a, b, c, d, UpTo(n), n);
    Rotate(a + {n}, b, c, d, UpTo(n + 1));
    Transfer(a + {n}, gone, c, b, d, UpTo(n + 1));
    Rotate((a + {n}) - gone, c + gone, b, d, UpTo(n + 1));
  }

  lemma AddAccounts(s: Spool, s1: Spool, f: Fates, gone: set<nat>)
    requires Accounted(s, f) && s.nextId >= 1 && gone <= Ids(s.rows) + {s.nextId}
    requires s1.nextId == s.nextId + 1 && Ids(s1.rows) == (Ids(s.rows) + {s.nextId}) - gone
    requires s1.dropped == s.dropped + |gone| && s1.rejected == s.rejected
    ensures Accounted(s1, f.(overflowed := f.overflowed + gone))
  {
    AddParts(Ids(s.rows), gone, f.acked, f.overflowed, f.buried, s.nextId);
  }

  lemma StepAccounts(s: Spool, f: Fates, op: Op)
    requires Inv(s) && Accounted(s, f)
    ensures Accounted(Step(s, op), Credit(f, op, Left(s, op)))
  {
    var rows, gone, all := Ids(s.rows), Left(s, op), UpTo(s.nextId);
    match op
    case Add(p) =>
      AddMoves(s, p);
      AddAccounts(s, Step(s, op), f, gone);
    case Ack(_) =>
      RemovalMoves(s, op);
      Transfer(rows, gone, f.acked, f.overflowed, f.buried, all);
    case _ =>
      RemovalMoves(s, op);
      Rotate(rows, f.acked, f.overflowed, f.buried, all);
      Transfer(rows, gone, f.buried, f.acked, f.overflowed, all);
      Rotate(rows - gone, f.buried + gone, f.acked, f.overflowed, all);
  }

  lemma {:induction false} Conservation(s: Spool, f: Fates, ops: seq<Op>)
    requires Inv(s) && Accounted(s, f)
    ensures Inv(Run(s, ops)) && Accounted(Run(s, ops), FatesAfter(s, f, ops))
    decreases |ops|
  {
    if ops != [] {
      StepKeeps(s, ops[0]);
      StepAccounts(s, f, ops[0]);
      Conservation(Step(s, ops[0]), Credit(f, ops[0], Left(s, ops[0])), ops[1..]);
    }
  }

  function Adds(ops: seq<Op>): nat {
    if ops == [] then 0 else (if ops[0].Add? then 1 else 0) + Adds(ops[1..])
  }

  lemma {:induction false} IdsFollowAdds(s: Spool, ops: seq<Op>)
    ensures Run(s, ops).nextId == s.nextId + Adds(ops)
    decreases |ops|
  {
    if ops != [] { IdsFollowAdds(Step(s, ops[0]), ops[1..]); }
  }

  /** From an empty spool, over any interleaving: each event added is in exactly
      one place, spooled, acknowledged, dropped on overflow or buried, and the
      counters count just those; no table exceeds its limit, and no spooled row
      has used up its attempts. */
  lemma EveryEventAccountedFor(maxEvents: nat, maxAttempts: nat, ops: seq<Op>)
    requires maxEvents >= 1 && maxAttempts >= 1
    ensures var s := Run(Empty(maxEvents, maxAttempts), ops);
      var f := FatesAfter(Empty(maxEvents, maxAttempts), Fates({}, {}, {}), ops);
      && Inv(s) && Accounted(s, f)
      && Adds(ops) == |s.rows| + |f.acked| + s.dropped + s.rejected
      && s.rejected == |s.dead| + s.deadDropped
  {
    var e := Empty(maxEvents, maxAttempts);
    Conservation(e, Fates({}, {}, {}), ops);
    var s, f := Run(e, ops), FatesAfter(e, Fates({}, {}, {}), ops);
    IdsFollowAdds(e, ops);
    IdsDistinct(s.rows);
    var a := Ids(s.rows) + f.acked;
    var b := a + f.overflowed;
    assert |a| == |s.rows| + |f.acked|;
    assert a * f.overflowed == {} && b * f.buried == {};
    assert |b| == |a| + |f.overflowed|;
    assert |b + f.buried| == |b| + |f.buried|;
  }

  // ---------------------------------------------------------------------
  // Payloads
  // ---------------------------------------------------------------------

  /** The payloads added by a run, in order. */
  function Added(ops: seq<Op>): seq<Payload> {
    if ops == [] then []
    else (if ops[0].Add? then [ops[0].payload] else []) + Added(ops[1..])
  }

  /** Row i carries the i-th payload ever added. */
  predicate Carries(r: Row, log: seq<Payload>) {
    1 <= r.id <= |log| && r.payload == log[r.id - 1]
  }

  predicate Faithful(s: Spool, log: seq<Payload>) {
    |log| == s.nextId - 1 && forall r :: r in s.rows ==> Carries(r, log)
  }

  lemma StepFaithful(s: Spool, op: Op, log: seq<Payload>)
    requires Inv(s) && Faithful(s, log)
    ensures Faithful(Step(s, op), log + (if op.Add? then [op.payload] else []))
  {
    match op
    case Add(p) =>
      var n := Excess(|Appended(s, p)|, s.maxEvents);
      forall r | r in Step(s, op).rows ensures Carries(r, log + [p]) {
        assert r in Appended(s, p);
        assert (r in s.rows && Carries(r, log)) || r == Row(s.nextId, p, 0);
      }
    case Ack(ids) =>
      WithoutMembers(s.rows, ToSet(ids));
      assert log + [] == log;
    case _ =>
      assert log + [] == log;
      if op.ids != [] { BurialFaithful(s, op, log); }
  }

  lemma BurialFaithful(s: Spool, op: Op, log: seq<Payload>)
    requires Inv(s) && Faithful(s, log) && (op.Fail? || op.Reject?) && op.ids != []
    ensures Faithful(Step(s, op), log)
  {
    var (rows, moved) := Moving(s, op);
    if op.Fail? { BumpFaithful(s.rows, ToSet(op.ids), log); }
    WithoutMembers(rows, Ids(moved));
  }

  lemma {:induction false} BumpFaithful(rows: seq<Row>, ids: set<nat>, log: seq<Payload>)
    requires forall r :: r in rows ==> Carries(r, log)
    ensures forall r :: r in Bump(rows, ids) ==> Carries(r, log)
  {
    if rows != [] {
      assert Carries(rows[0], log);
      BumpFaithful(rows[1..], ids, log);
    }
  }

  /** No operation ever alters or mixes up events: over any run from an empty
      spool, the row with id i holds the i-th payload added. */
  lemma {:induction false} RowsCarryTheirPayloads(s: Spool, ops: seq<Op>, log: seq<Payload>)
    requires Inv(s) && Faithful(s, log)
    ensures Faithful(Run(s, ops), log + Added(ops))
    decreases |ops|
  {
    if ops == [] {
      assert log + [] == log;
    } else {
      var first := if ops[0].Add? then [ops[0].payload] else [];
      StepKeeps(s, ops[0]);
      StepFaithful(s, ops[0], log);
      RowsCarryTheirPayloads(Step(s, ops[0]), ops[1..], log + first);
      assert (log + first) + Added(ops[1..]) == log + (first + Added(ops[1..]));
    }
  }

  // ---------------------------------------------------------------------
  // A stale acknowledgement
  // ---------------------------------------------------------------------

  lemma {:induction false} GoneForGood(s: Spool, ops: seq<Op>, id: nat)
    requires Inv(s) && id < s.nextId && id !in Ids(s.rows)
    ensures id !in Ids(Run(s, ops).rows)
    decreases |ops|
  {
    if ops != [] {
      StepKeeps(s, ops[0]);
      if ops[0].Add? { AddMoves(s, ops[0].payload); } else { RemovalMoves(s, ops[0]); }
      GoneForGood(Step(s, ops[0]), ops[1..], id);
    }
  }

  /** Whatever happens between the uploader's peek and its acknowledgement, the
      acknowledgement removes no row but those peeked, in particular none added
      since; and an id it removed never comes back. */
  lemma StaleAckIsHarmless(s: Spool, limit: nat, ops: seq<Op>, ids: seq<nat>, later: seq<Op>)
    requires Inv(s) && ToSet(ids) <= Ids(Peek(s, limit))
    ensures var t := Run(s, ops); var t1 := Step(t, Ack(ids));
      && Ids(t1.rows) == Ids(t.rows) - ToSet(ids)
      && (forall r :: r in t.rows && (r.id >= s.nextId || r.id !in Ids(Peek(s, limit))) ==> r in t1.rows)
      && Ids(Run(t1, later).rows) * ToSet(ids) == {}
  {
    var t := Run(s, ops);
    RunInv(s, ops);
    SelectedIds(t.rows, ToSet(ids));
    WithoutMembers(t.rows, ToSet(ids));
    IdsFollowAdds(s, ops);
    AckKeeps(t, ids);
    var peeked := Peek(s, limit);
    IdsMembers(peeked);
    assert forall r :: r in peeked ==> r in s.rows;
    assert forall i :: i in ToSet(ids) ==> i < s.nextId;
    forall i | i in ToSet(ids) ensures i !in Ids(Run(Step(t, Ack(ids)), later).rows) {
      GoneForGood(Step(t, Ack(ids)), later, i);
    }
  }

  lemma {:induction false} RunInv(s: Spool, ops: seq<Op>)
    requires Inv(s)
    ensures Inv(Run(s, ops))
    decreases |ops|
  {
    if ops != [] {
      StepKeeps(s, ops[0]);
      RunInv(Step(s, ops[0]), ops[1..]);
    }
  }

  // ---------------------------------------------------------------------
  // Draining
  // ---------------------------------------------------------------------

  /** Upload attempts left in the table. */
  function Fuel(rows: seq<Row>, limit: nat): int {
    if rows == [] then 0 else limit - rows[0].attempts + Fuel(rows[1..], limit)
  }

  lemma {:induction false} FuelSplits(rows: seq<Row>, ids: set<nat>, limit: nat)
    ensures Fuel(Without(rows, ids), limit) + Fuel(Within(rows, ids), limit) == Fuel(rows, limit)
    ensures Fuel(Bump(rows, ids), limit) == Fuel(rows, limit) - |Within(rows, ids)|
  {
    if rows != [] { FuelSplits(rows[1..], ids, limit); }
  }

  lemma {:induction false} FuelBounds(rows: seq<Row>, limit: nat)
    requires forall r :: r in rows ==> r.attempts <= limit
    ensures Fuel(rows, limit) >= 0
    ensures (forall r :: r in rows ==> r.attempts < limit) ==> Fuel(rows, limit) >= |rows|
    ensures (forall r :: r in rows ==> r.attempts == limit) ==> Fuel(rows, limit) == 0
  {
    if rows != [] { FuelBounds(rows[1..], limit); }
  }

  lemma {:induction false} FuelAtMost(rows: seq<Row>, limit: nat)
    ensures Fuel(rows, limit) <= limit * |rows|
  {
    if rows != [] {
      FuelAtMost(rows[1..], limit);
      assert limit * |rows| == limit + limit * (|rows| - 1);
    }
  }

  /** How a post ends, as the upload loop tells them apart.  `BadReply` stands
      for the HTTPException that no handler of the loop names: a reply cut short,
      or a status line that is not one.  It ends the uploader's thread. */
  datatype PostResult = Delivered | HttpError(code: nat) | Unreachable | BadData | BadReply

  function Decimal(n: nat): string {
    var digit := ['0' + (n % 10) as char];
    if n < 10 then digit else Decimal(n / 10) + digit
  }

  function Number(digits: string): int {
    if digits == [] then 0 else 10 * Number(digits[..|digits| - 1]) + (digits[|digits| - 1] as int - '0' as int)
  }

  /** A refusal names its status in the reason. */
  lemma {:induction false} DecimalReads(n: nat)
    ensures Number(Decimal(n)) == n
  {
    if n >= 10 {
      DecimalReads(n / 10);
      assert Decimal(n)[..|Decimal(n)| - 1] == Decimal(n / 10);
    } else {
      assert Decimal(n)[..0] == [];
    }
  }

  function OutcomeOf(r: PostResult, ids: seq<nat>): Op
    requires !r.BadReply?
  {
    match r
    case Delivered => Ack(ids)
    case HttpError(code) =>
      if 400 <= code < 500 && code != 408 && code != 429 then Reject(ids, "http_" + Decimal(code)) else Fail(ids)
    case Unreachable => Fail(ids)
    case BadData => Fail(ids)
  }

  function RowIds(rows: seq<Row>): (ids: seq<nat>)
    ensures |ids| == |rows| && forall i :: 0 <= i < |rows| ==> ids[i] == rows[i].id
  {
    seq(|rows|, i requires 0 <= i < |rows| => rows[i].id)
  }

  /** One turn of the upload loop, while a producer adds events between the peek
      and the outcome. */
  datatype Turn = Turn(result: PostResult, added: seq<Payload>)

  function AddAll(s: Spool, ps: seq<Payload>): Spool
    decreases |ps|
  {
    if ps == [] then s else AddAll(Step(s, Add(ps[0])), ps[1..])
  }

  /** The spool, whether the uploader's thread is still running, and the events
      of every post it has made. */
  datatype Uploading = Uploading(spool: Spool, running: bool, posts: seq<seq<Payload>>)

  function Payloads(rows: seq<Row>): (ps: seq<Payload>)
    ensures |ps| == |rows| && forall i :: 0 <= i < |rows| ==> ps[i] == rows[i].payload
  {
    seq(|rows|, i requires 0 <= i < |rows| => rows[i].payload)
  }

  function TakeTurn(u: Uploading, batch: nat, t: Turn): Uploading {
    var peeked := Peek(u.spool, batch);
    var ids, s1 := RowIds(peeked), AddAll(u.spool, t.added);
    if !u.running || ids == [] then u.(spool := s1)
    else
      var posts := u.posts + [Payloads(peeked)];
      if t.result.BadReply? then Uploading(s1, false, posts)
      else Uploading(Step(s1, OutcomeOf(t.result, ids)), true, posts)
  }

  function TakeTurns(u: Uploading, batch: nat, ts: seq<Turn>): Uploading
    decreases |ts|
  {
    if ts == [] then u else TakeTurns(TakeTurn(u, batch, ts[0]), batch, ts[1..])
  }

  lemma OutcomeBurnsFuel(s: Spool, op: Op)
    requires Inv(s) && !op.Add? && op.ids != [] && Within(s.rows, ToSet(op.ids)) != []
    ensures Fuel(Step(s, op).rows, s.maxAttempts) < Fuel(s.rows, s.maxAttempts)
  {
    var ids, limit := ToSet(op.ids), s.maxAttempts;
    var inside := Within(s.rows, ids);
    WithinMembers(s.rows, ids);
    FuelSplits(s.rows, ids, limit);
    FuelBounds(inside, limit);
    if !op.Ack? {
      MovingRows(s, op);
      var (rows, moved) := Moving(s, op);
      FuelSplits(rows, Ids(moved), limit);
      WithinMembers(rows, Ids(moved));
      FuelBounds(moved, limit);
    }
  }

  lemma TurnBurnsFuel(u: Uploading, batch: nat, t: Turn)
    requires Inv(u.spool) && u.running && batch >= 1 && u.spool.rows != [] && t.added == [] && !t.result.BadReply?
    ensures var s, s1 := u.spool, TakeTurn(u, batch, t).spool;
      Inv(s1) && Fuel(s1.rows, s1.maxAttempts) < Fuel(s.rows, s.maxAttempts) && s1.maxAttempts == s.maxAttempts
  {
    var s := u.spool;
    var peeked := Peek(s, batch);
    var ids := RowIds(peeked);
    assert s.rows[0] == peeked[0];
    assert s.rows[0].id in ToSet(ids);
    WithinMembers(s.rows, ToSet(ids));
    assert s.rows[0] in Within(s.rows, ToSet(ids));
    StepKeeps(s, OutcomeOf(t.result, ids));
    OutcomeBurnsFuel(s, OutcomeOf(t.result, ids));
  }

  /** The statuses that no later attempt can mend. */
  predicate RefusedForGood(r: PostResult) {
    r.HttpError? && r.code / 100 == 4 && r.code !in {408, 429}
  }

  /** A producer at work while a post is under way alters no row that was there,
      and counts no rejection. */
  lemma {:induction false} AddAllKeeps(s: Spool, ps: seq<Payload>)
    requires Inv(s)
    ensures var s1 := AddAll(s, ps);
      && Inv(s1) && s1.maxAttempts == s.maxAttempts && s1.nextId == s.nextId + |ps|
      && s1.dead == s.dead && s1.rejected == s.rejected
      && (forall r :: r in s1.rows && r.id < s.nextId ==> r in s.rows)
    decreases |ps|
  {
    if ps != [] {
      var s1 := Step(s, Add(ps[0]));
      AddKeeps(s, ps[0]);
      AddAllKeeps(s1, ps[1..]);
      forall r | r in s1.rows && r.id < s.nextId ensures r in s.rows {
        assert r in Appended(s, ps[0]);
      }
    }
  }

  /** What a posted batch comes to, and no other row: delivered, it leaves the
      table; refused for good, it leaves the table and counts as rejected; after
      a reply that ends the uploader everything stays as it is; after any other
      failure every event with an attempt to spare stays, with one attempt more
      if it was posted. */
  predicate Settles(s: Spool, s1: Spool, posted: set<nat>, result: PostResult) {
    if result.Delivered? then
      Ids(s1.rows) == Ids(s.rows) - posted && s1.dead == s.dead && s1.rejected == s.rejected
    else if RefusedForGood(result) then
      Ids(s1.rows) == Ids(s.rows) - posted && s1.rejected == s.rejected + |Ids(s.rows) * posted|
    else if result.BadReply? then s1 == s
    else
      forall r :: r in s.rows && r.attempts + 1 < s.maxAttempts ==>
        r.(attempts := r.attempts + if r.id in posted then 1 else 0) in s1.rows
  }

  /** Whatever was added meanwhile, and whatever of the batch that pushed out, a
      turn settles the batch it posted; only a bad reply ends the uploader. */
  lemma TurnSettlesBatch(u: Uploading, batch: nat, t: Turn)
    requires Inv(u.spool) && u.running
    ensures Settles(AddAll(u.spool, t.added), TakeTurn(u, batch, t).spool, Ids(Peek(u.spool, batch)), t.result)
    ensures TakeTurn(u, batch, t).running <==> !(t.result.BadReply? && Peek(u.spool, batch) != [])
  {
    var s, posted := AddAll(u.spool, t.added), Peek(u.spool, batch);
    RowIdsSet(posted);
    AddAllKeeps(u.spool, t.added);
    if posted == [] {
      assert RowIds(posted) == [];
      NothingSettles(s, t.result);
    } else if !t.result.BadReply? {
      OutcomeSettles(s, RowIds(posted), t.result);
    }
  }

  lemma NothingSettles(s: Spool, result: PostResult)
    ensures Settles(s, s, {}, result)
  {
    assert Ids(s.rows) * {} == {};
  }

  lemma OutcomeSettles(s: Spool, ids: seq<nat>, result: PostResult)
    requires Inv(s) && ids != [] && !result.BadReply?
    ensures Settles(s, Step(s, OutcomeOf(result, ids)), ToSet(ids), result)
  {
    if result.Delivered? {
      SelectedIds(s.rows, ToSet(ids));
    } else if RefusedForGood(result) {
      RejectTakesAll(s, ids, OutcomeOf(result, ids).reason);
    } else {
      forall r | r in s.rows && r.attempts + 1 < s.maxAttempts
        ensures r.(attempts := r.attempts + if r.id in ToSet(ids) then 1 else 0) in Step(s, Fail(ids)).rows
      {
        if r.id in ids { FailCountsAttempts(s, ids, r); } else { FailSpares(s, ids, r); }
      }
    }
  }

  /** An event refused for good is a dead letter whose reason names the status. */
  lemma RefusalNamesStatus(s: Spool, ids: seq<nat>, code: nat, r: Row) returns (digits: string)
    requires Inv(s) && RefusedForGood(HttpError(code)) && r in s.rows && r.id in ids
    ensures Number(digits) == code
    ensures DeadRow(r.payload, r.attempts, "http_" + digits) in Step(s, OutcomeOf(HttpError(code), ids)).dead
  {
    digits := Decimal(code);
    DecimalReads(code);
    WithinMembers(s.rows, ToSet(ids));
    BuriedIsKept(s, OutcomeOf(HttpError(code), ids), r);
  }

  lemma RejectTakesAll(s: Spool, ids: seq<nat>, reason: string)
    requires Inv(s) && ids != []
    ensures var s1 := Step(s, Reject(ids, reason));
      Ids(s1.rows) == Ids(s.rows) - ToSet(ids) && s1.rejected == s.rejected + |Ids(s.rows) * ToSet(ids)|
  {
    BurialMoves(s, Reject(ids, reason));
    SelectedIds(s.rows, ToSet(ids));
    Difference(Ids(s.rows), ToSet(ids));
  }

  lemma {:induction false} RowIdsSet(rows: seq<Row>)
    ensures ToSet(RowIds(rows)) == Ids(rows)
  {
    if rows != [] {
      RowIdsSet(rows[1..]);
      assert RowIds(rows) == [rows[0].id] + RowIds(rows[1..]);
      assert forall i :: i in ToSet(RowIds(rows)) <==> i == rows[0].id || i in ToSet(RowIds(rows[1..]));
    }
  }

  /** A row whose upload was not tried stays as it is. */
  lemma FailSpares(s: Spool, ids: seq<nat>, r: Row)
    requires Inv(s) && ids != [] && r in s.rows && r.id !in ids
    ensures r in Step(s, Fail(ids)).rows
  {
    var (rows, moved) := Moving(s, Fail(ids));
    MovingRows(s, Fail(ids));
    BumpedOnce(s.rows, ToSet(ids), r);
    ExhaustedRows(rows, s.maxAttempts);
    WithoutMembers(rows, Ids(moved));
    Within1(rows, Ids(moved), r);
  }

  lemma BumpedOnce(rows: seq<Row>, ids: set<nat>, r: Row)
    requires r in rows
    ensures (if r.id in ids then r.(attempts := r.attempts + 1) else r) in Bump(rows, ids)
  {
    Bumped(rows, ids);
    var k :| 0 <= k < |rows| && rows[k] == r;
    assert Bump(rows, ids)[k] == if r.id in ids then r.(attempts := r.attempts + 1) else r;
  }

  /** A bad reply comes while there are rows to post. */
  predicate BadReplyWithRows(u: Uploading, batch: nat, ts: seq<Turn>)
    decreases |ts|
  {
    ts != [] &&
    ((u.spool.rows != [] && ts[0].result.BadReply?) || BadReplyWithRows(TakeTurn(u, batch, ts[0]), batch, ts[1..]))
  }

  /** With no more events coming, every turn with rows in the table uses up at
      least one of the attempts left.  So after as many turns as there are
      attempts, at most maxAttempts times the rows, the spool is empty, if and
      only if no bad reply came while there were rows. */
  lemma {:induction false} SpoolDrains(u: Uploading, batch: nat, ts: seq<Turn>)
    requires Inv(u.spool) && u.running && batch >= 1
    requires forall t :: t in ts ==> t.added == []
    requires |ts| >= Fuel(u.spool.rows, u.spool.maxAttempts)
    ensures TakeTurns(u, batch, ts).spool.rows == [] <==> !BadReplyWithRows(u, batch, ts)
    ensures Fuel(u.spool.rows, u.spool.maxAttempts) <= u.spool.maxAttempts * |u.spool.rows|
    decreases |ts|
  {
    var s := u.spool;
    FuelBounds(s.rows, s.maxAttempts);
    FuelAtMost(s.rows, s.maxAttempts);
    if ts != [] {
      assert ts[0] in ts;
      var u1 := TakeTurn(u, batch, ts[0]);
      if s.rows == [] {
        assert RowIds(Peek(s, batch)) == [];
        SpoolDrains(u1, batch, ts[1..]);
      } else if ts[0].result.BadReply? {
        assert RowIds(Peek(s, batch)) != [];
        NobodyUploads(u1, batch, ts[1..]);
      } else {
        TurnBurnsFuel(u, batch, ts[0]);
        SpoolDrains(u1, batch, ts[1..]);
      }
    }
  }

  /** Once the uploader's thread is gone, no turn touches the spool. */
  lemma {:induction false} NobodyUploads(u: Uploading, batch: nat, ts: seq<Turn>)
    requires !u.running && forall t :: t in ts ==> t.added == []
    ensures TakeTurns(u, batch, ts) == u
    decreases |ts|
  {
    if ts != [] {
      assert ts[0] in ts;
      NobodyUploads(u, batch, ts[1..]);
    }
  }

  /** One event, one bad reply: the event stays for ever. */
  lemma BadReplyStopsUploads(payload: Payload, batch: nat, ts: seq<Turn>)
    requires batch >= 1 && forall t :: t in ts ==> t.added == []
    ensures var u := Uploading(Step(Empty(1, 1), Add(payload)), true, []);
      TakeTurns(u, batch, [Turn(BadReply, [])] + ts).spool.rows == [Row(1, payload, 0)]
  {
    var u := Uploading(Step(Empty(1, 1), Add(payload)), true, []);
    assert u.spool.rows == [Row(1, payload, 0)];
    assert RowIds(Peek(u.spool, batch)) != [];
    NobodyUploads(TakeTurn(u, batch, Turn(BadReply, [])), batch, ts);
    assert ([Turn(BadReply, [])] + ts)[1..] == ts;
  }

  // ---------------------------------------------------------------------
  // What is posted
  // ---------------------------------------------------------------------

  lemma {:induction false} IdsIncrease(rows: seq<Row>)
    requires Sorted(rows)
    ensures forall i, j :: 0 <= i < j < |rows| ==> rows[i].id < rows[j].id
  {
    if rows != [] {
      IdsIncrease(rows[1..]);
      IdsMembers(rows[1..]);
      assert forall i :: 1 <= i < |rows| ==> rows[i] == rows[1..][i - 1] && rows[i] in rows[1..];
    }
  }

  /** The events of a post are logged events, each its own, in the order logged. */
  predicate PostedFrom(post: seq<Payload>, ids: seq<nat>, log: seq<Payload>) {
    && |ids| == |post|
    && (forall i, j :: 0 <= i < j < |ids| ==> ids[i] < ids[j])
    && (forall i :: 0 <= i < |ids| ==> 1 <= ids[i] <= |log| && post[i] == log[ids[i] - 1])
  }

  ghost predicate GenuinePost(post: seq<Payload>, log: seq<Payload>) {
    exists ids :: PostedFrom(post, ids, log)
  }

  ghost predicate Genuine(posts: seq<seq<Payload>>, log: seq<Payload>) {
    forall k :: 0 <= k < |posts| ==> GenuinePost(posts[k], log)
  }

  /** A peek gives the first rows of the table, as they are. */
  lemma PeekIsFront(s: Spool, limit: nat, log: seq<Payload>)
    requires Inv(s) && Faithful(s, log)
    ensures var rows := Peek(s, limit);
      && |rows| == (if limit <= |s.rows| then limit else |s.rows|)
      && (forall i :: 0 <= i < |rows| ==> rows[i] == s.rows[i])
      && PostedFrom(Payloads(rows), RowIds(rows), log)
  {
    IdsIncrease(s.rows);
    forall i | 0 <= i < |Peek(s, limit)| ensures Carries(Peek(s, limit)[i], log) {
      assert Peek(s, limit)[i] in s.rows;
    }
  }

  lemma {:induction false} AddAllFaithful(s: Spool, ps: seq<Payload>, log: seq<Payload>)
    requires Inv(s) && Faithful(s, log)
    ensures Faithful(AddAll(s, ps), log + ps)
    decreases |ps|
  {
    if ps == [] {
      assert log + ps == log;
    } else {
      AddKeeps(s, ps[0]);
      StepFaithful(s, Add(ps[0]), log);
      AddAllFaithful(Step(s, Add(ps[0])), ps[1..], log + [ps[0]]);
      assert (log + [ps[0]]) + ps[1..] == log + ps;
    }
  }

  lemma TurnKeeps(u: Uploading, batch: nat, t: Turn, log: seq<Payload>)
    requires Inv(u.spool) && Faithful(u.spool, log)
    ensures Inv(TakeTurn(u, batch, t).spool) && Faithful(TakeTurn(u, batch, t).spool, log + t.added)
  {
    var s, ids := AddAll(u.spool, t.added), RowIds(Peek(u.spool, batch));
    AddAllKeeps(u.spool, t.added);
    AddAllFaithful(u.spool, t.added, log);
    if u.running && ids != [] && !t.result.BadReply? {
      var op := OutcomeOf(t.result, ids);
      StepKeeps(s, op);
      StepFaithful(s, op, log + t.added);
      assert (log + t.added) + [] == log + t.added;
    }
  }

  function Produced(ts: seq<Turn>): seq<Payload> {
    if ts == [] then [] else ts[0].added + Produced(ts[1..])
  }

  lemma PostsGrow(posts: seq<seq<Payload>>, log: seq<Payload>, more: seq<Payload>)
    requires Genuine(posts, log)
    ensures Genuine(posts, log + more)
  {
    forall k | 0 <= k < |posts| ensures GenuinePost(posts[k], log + more) {
      assert GenuinePost(posts[k], log);
      var ids :| PostedFrom(posts[k], ids, log);
      assert PostedFrom(posts[k], ids, log + more);
    }
  }

  lemma TurnPosts(u: Uploading, batch: nat, t: Turn, log: seq<Payload>)
    requires Inv(u.spool) && Faithful(u.spool, log) && Genuine(u.posts, log)
    ensures Genuine(TakeTurn(u, batch, t).posts, log + t.added)
  {
    PeekIsFront(u.spool, batch, log);
    var peeked := Peek(u.spool, batch);
    assert PostedFrom(Payloads(peeked), RowIds(peeked), log);
    assert Genuine(TakeTurn(u, batch, t).posts, log);
    PostsGrow(TakeTurn(u, batch, t).posts, log, t.added);
  }

  /** Over any run of the loop: every event it ever posts is one that was logged,
      none mixed up with another, and the rows keep theirs. */
  lemma {:induction false} PostsAreGenuine(u: Uploading, batch: nat, ts: seq<Turn>, log: seq<Payload>)
    requires Inv(u.spool) && Faithful(u.spool, log) && Genuine(u.posts, log)
    ensures var u1 := TakeTurns(u, batch, ts);
      Inv(u1.spool) && Faithful(u1.spool, log + Produced(ts)) && Genuine(u1.posts, log + Produced(ts))
    decreases |ts|
  {
    if ts == [] {
      assert log + [] == log;
    } else {
      TurnKeeps(u, batch, ts[0], log);
      TurnPosts(u, batch, ts[0], log);
      PostsAreGenuine(TakeTurn(u, batch, ts[0]), batch, ts[1..], log + ts[0].added);
      assert (log + ts[0].added) + Produced(ts[1..]) == log + Produced(ts);
    }
  }

  /** And no event is taken off as delivered without having been in the post
      that was: the last post holds, for each of them, the event logged under its
      id. */
  lemma DeliveredWasPosted(u: Uploading, batch: nat, t: Turn, log: seq<Payload>, id: nat)
    returns (k: nat)
    requires Inv(u.spool) && Faithful(u.spool, log) && u.running && t.result.Delivered?
    requires id in Ids(AddAll(u.spool, t.added).rows) && id !in Ids(TakeTurn(u, batch, t).spool.rows)
    ensures var posts := TakeTurn(u, batch, t).posts;
      && |posts| == |u.posts| + 1 && 1 <= id <= |log|
      && k < |posts[|u.posts|]| && posts[|u.posts|][k] == log[id - 1]
  {
    var peeked := Peek(u.spool, batch);
    TurnSettlesBatch(u, batch, t);
    PeekIsFront(u.spool, batch, log);
    RowIdsSet(peeked);
    assert id in Ids(peeked) && id in ToSet(RowIds(peeked));
    k :| 0 <= k < |peeked| && RowIds(peeked)[k] == id;
  }

  // ---------------------------------------------------------------------
  // Attempts over a whole run
  // ---------------------------------------------------------------------

  /** A counted upload failure of one event, while it is spooled. */
  predicate Hits(s: Spool, op: Op, id: nat) {
    op.Fail? && id in op.ids && id in Ids(s.rows)
  }

  function CountHits(s: Spool, ops: seq<Op>, id: nat): nat
    decreases |ops|
  {
    if ops == [] then 0 else (if Hits(s, ops[0], id) then 1 else 0) + CountHits(Step(s, ops[0]), ops[1..], id)
  }

  predicate Tracks(s: Spool, id: nat, n: nat) {
    && n <= s.maxAttempts && (id >= s.nextId ==> n == 0)
    && forall r :: r in s.rows && r.id == id ==> r.attempts == n
  }

  lemma FailTracks(s: Spool, op: Op, id: nat, n: nat)
    requires Inv(s) && Tracks(s, id, n) && (op.Fail? || op.Reject?) && op.ids != []
    ensures Tracks(Step(s, op), id, n + if Hits(s, op, id) then 1 else 0)
  {
    var (rows, moved) := Moving(s, op);
    WithoutMembers(rows, Ids(moved));
    IdsMembers(s.rows);
    if op.Fail? { BumpTracks(s.rows, ToSet(op.ids), id, n); }
  }

  lemma {:induction false} BumpTracks(rows: seq<Row>, ids: set<nat>, id: nat, n: nat)
    requires forall r :: r in rows && r.id == id ==> r.attempts == n
    ensures forall r :: r in Bump(rows, ids) && r.id == id ==>
      id in Ids(rows) && r.attempts == n + if id in ids then 1 else 0
  {
    if rows != [] {
      assert rows[0] in rows;
      BumpTracks(rows[1..], ids, id, n);
    }
  }

  lemma StepTracks(s: Spool, op: Op, id: nat, n: nat)
    requires Inv(s) && Tracks(s, id, n)
    ensures Tracks(Step(s, op), id, n + if Hits(s, op, id) then 1 else 0)
  {
    match op
    case Add(p) =>
      forall r | r in Step(s, op).rows && r.id == id ensures r.attempts == n {
        assert r in Appended(s, p);
        assert r in s.rows || r == Row(s.nextId, p, 0);
      }
    case Ack(ids) => WithoutMembers(s.rows, ToSet(ids));
    case _ => if op.ids != [] { FailTracks(s, op, id, n); }
  }

  lemma {:induction false} HitsTracked(s: Spool, ops: seq<Op>, id: nat, n: nat)
    requires Inv(s) && Tracks(s, id, n)
    ensures Tracks(Run(s, ops), id, n + CountHits(s, ops, id))
    decreases |ops|
  {
    if ops != [] {
      StepKeeps(s, ops[0]);
      StepTracks(s, ops[0], id, n);
      HitsTracked(Step(s, ops[0]), ops[1..], id, n + if Hits(s, ops[0], id) then 1 else 0);
    }
  }

  /** From an empty spool, over any interleaving: an event sees at most
      max_attempts counted upload failures, and while it is spooled its
      attempts are exactly their number. */
  lemma AttemptsAreBounded(maxEvents: nat, maxAttempts: nat, ops: seq<Op>, id: nat)
    requires maxEvents >= 1 && maxAttempts >= 1
    ensures var e := Empty(maxEvents, maxAttempts);
      && CountHits(e, ops, id) <= maxAttempts
      && forall r :: r in Run(e, ops).rows && r.id == id ==> r.attempts == CountHits(e, ops, id) < maxAttempts
  {
    var e := Empty(maxEvents, maxAttempts);
    HitsTracked(e, ops, id, 0);
    RunInv(e, ops);
    LimitsStay(e, ops);
  }

  lemma {:induction false} LimitsStay(s: Spool, ops: seq<Op>)
    ensures Run(s, ops).maxAttempts == s.maxAttempts
    decreases |ops|
  {
    if ops != [] { LimitsStay(Step(s, ops[0]), ops[1..]); }
  }

  // ---------------------------------------------------------------------
  // Single operations
  // ---------------------------------------------------------------------

  /** The dead letters make room by their oldest: what is left is the newest of
      what there was and what was moved, as many as the limit lets stay. */
  lemma DeadLettersDropOldest(s: Spool, op: Op, i: nat)
    requires Inv(s) && (op.Fail? || op.Reject?) && op.ids != []
    requires i < |Step(s, op).dead|
    ensures var moved, dead := Moving(s, op).1, Step(s, op).dead;
      var total := |s.dead| + |moved|;
      && |dead| == (if total > s.maxEvents then s.maxEvents else total)
      && (var j := i + total - |dead|;
          if j < |s.dead| then dead[i] == s.dead[j]
          else dead[i].payload == moved[j - |s.dead|].payload && dead[i].attempts == moved[j - |s.dead|].attempts)
  {
  }

  /** Every event taken out of the spool is in the dead letters at that moment,
      with its payload, its attempts and the reason; older dead letters make room. */
  lemma BuriedIsKept(s: Spool, op: Op, r: Row)
    requires Inv(s) && (op.Fail? || op.Reject?) && op.ids != [] && r in Moving(s, op).1
    ensures DeadRow(r.payload, r.attempts, if op.Reject? then op.reason else "max_attempts") in Step(s, op).dead
  {
    var reason := if op.Reject? then op.reason else "max_attempts";
    MovingRows(s, op);
    var (rows, moved) := Moving(s, op);
    SelectedIds(rows, Ids(moved));
    assert |moved| <= s.maxEvents;
    var k :| 0 <= k < |moved| && moved[k] == r;
    var all := s.dead + Buried(moved, reason);
    var n := Excess(|all|, s.maxEvents);
    assert all[|s.dead| + k] == DeadRow(r.payload, r.attempts, reason);
    assert n <= |s.dead| && all[n..][|s.dead| + k - n] == all[|s.dead| + k];
    assert Step(s, op).dead == all[n..];
  }

  /** A counted failure leaves its row with one attempt more while that is below
      the limit, and otherwise takes it off the spool into the dead letters. */
  lemma FailCountsAttempts(s: Spool, ids: seq<nat>, r: Row)
    requires Inv(s) && r in s.rows && r.id in ids
    ensures var s1 := Step(s, Fail(ids)); var r1 := r.(attempts := r.attempts + 1);
      && (r1.attempts < s.maxAttempts ==> r1 in s1.rows)
      && (r1.attempts >= s.maxAttempts ==>
            r.id !in Ids(s1.rows) && DeadRow(r.payload, r1.attempts, "max_attempts") in s1.dead)
  {
    MovingRows(s, Fail(ids));
    var (rows, moved) := Moving(s, Fail(ids));
    var r1 := r.(attempts := r.attempts + 1);
    BumpedOnce(s.rows, ToSet(ids), r);
    WithoutMembers(rows, Ids(moved));
    SelectedIds(rows, Ids(moved));
    ExhaustedRows(rows, s.maxAttempts);
    IdsMembers(moved);
    if r1.attempts < s.maxAttempts {
      Within1(rows, Ids(moved), r1);
    } else {
      BuriedIsKept(s, Fail(ids), r1);
    }
  }

  lemma Within1(rows: seq<Row>, ids: set<nat>, r: Row)
    requires r in rows && r !in Within(rows, ids)
    ensures r.id !in ids
  {
    WithinMembers(rows, ids);
  }

  // ---------------------------------------------------------------------
  // The object
  // ---------------------------------------------------------------------

  class LogSpool {
    const maxEvents: nat
    const maxAttempts: nat
    var nextId: nat
    var rows: seq<Row>
    var dead: seq<DeadRow>
    var dropped: nat
    var rejected: nat
    var deadDropped: nat

    ghost function View(): Spool
      reads this
    {
      Spool(maxEvents, maxAttempts, nextId, rows, dead, dropped, rejected, deadDropped)
    }

    constructor (events: int, attempts: int)
      ensures View() == Empty(if events < 1 then 1 else events, if attempts < 1 then 1 else attempts)
      ensures Inv(View())
    {
      maxEvents := if events < 1 then 1 else events;
      maxAttempts := if attempts < 1 then 1 else attempts;
      nextId, rows, dead, dropped, rejected, deadDropped := 1, [], [], 0, 0, 0;
    }

    method Add(p: Payload)
      requires Inv(View())
      modifies this
      ensures View() == Step(old(View()), Op.Add(p)) && Inv(View())
    {
      StepKeeps(View(), Op.Add(p));
      rows := rows + [Row(nextId, p, 0)];
      nextId := nextId + 1;
      var count := |rows|;
      if count > maxEvents {
        var excess := count - maxEvents;
        rows := rows[excess..];
        dropped := dropped + excess;
      }
    }

    /** The oldest rows, as many as there are up to the limit. */
    method PeekRows(limit: nat) returns (batch: seq<Row>)
      requires Inv(View())
      ensures |batch| == (if limit <= |rows| then limit else |rows|)
      ensures forall i :: 0 <= i < |batch| ==> batch[i] == rows[i]
      ensures forall i, j :: 0 <= i < j < |batch| ==> batch[i].id < batch[j].id
      ensures Ids(batch) <= Ids(rows) && |Ids(batch)| == |batch|
      ensures forall i, j :: i in Ids(batch) && j in Ids(rows) && j !in Ids(batch) ==> i < j
      ensures batch == Peek(View(), limit)
    {
      batch := if limit <= |rows| then rows[..limit] else rows;
      IdsIncrease(rows);
      if limit <= |rows| {
        OldestFirst(rows, limit);
      } else {
        IdsDistinct(rows);
      }
    }

    method Ack(ids: seq<nat>)
      requires Inv(View())
      modifies this
      ensures View() == Step(old(View()), Op.Ack(ids)) && Inv(View())
    {
      StepKeeps(View(), Op.Ack(ids));
      if ids == [] {
        WithoutNone(rows);
        assert ToSet(ids) == {};
        return;
      }
      rows := Without(rows, ToSet(ids));
    }

    method Fail(ids: seq<nat>)
      requires Inv(View())
      modifies this
      ensures View() == Step(old(View()), Op.Fail(ids)) && Inv(View())
    {
      StepKeeps(View(), Op.Fail(ids));
      if ids == [] { return; }
      rows := Bump(rows, ToSet(ids));
      ToDeadLetter(Exhausted(rows, maxAttempts), "max_attempts");
    }

    method Reject(ids: seq<nat>, reason: string)
      requires Inv(View())
      modifies this
      ensures View() == Step(old(View()), Op.Reject(ids, reason)) && Inv(View())
    {
      StepKeeps(View(), Op.Reject(ids, reason));
      if ids == [] { return; }
      ToDeadLetter(Within(rows, ToSet(ids)), reason);
    }

    method ToDeadLetter(moved: seq<Row>, reason: string)
      modifies this
      ensures View() == Bury(old(View()), moved, reason)
    {
      WithoutNone(rows);
      assert Ids(moved[..0]) == {};
      for i := 0 to |moved|
        invariant nextId == old(nextId) && dropped == old(dropped)
        invariant rejected == old(rejected) && deadDropped == old(deadDropped)
        invariant rows == Without(old(rows), Ids(moved[..i]))
        invariant dead == old(dead) + Buried(moved[..i], reason)
      {
        var r := moved[i];
        assert Buried(moved[..i + 1], reason) == Buried(moved[..i], reason) + [DeadRow(r.payload, r.attempts, reason)];
        dead := dead + [DeadRow(r.payload, r.attempts, reason)];
        WithoutTwice(old(rows), Ids(moved[..i]), {r.id});
        assert moved[..i + 1] == moved[..i] + [r];
        IdsConcat(moved[..i], [r]);
        assert Ids([r]) == {r.id};
        rows := Without(rows, {r.id});
      }
      assert moved[..|moved|] == moved;
      rejected := rejected + |moved|;
      var count := |dead|;
      if count > maxEvents {
        var excess := count - maxEvents;
        dead := dead[excess..];
        deadDropped := deadDropped + excess;
      }
    }

    /** The upload loop over the given turns; it ends at a bad reply, and the
        producer goes on without it. */
    method RunLoop(batch: nat, ts: seq<Turn>) returns (running: bool, posts: seq<seq<Payload>>)
      requires Inv(View())
      modifies this
      ensures Uploading(View(), running, posts) == TakeTurns(Uploading(old(View()), true, []), batch, ts) && Inv(View())
    {
      running, posts := true, [];
      assert ts[0..] == ts;
      for i := 0 to |ts|
        invariant Inv(View())
        invariant TakeTurns(Uploading(View(), running, posts), batch, ts[i..]) ==
          TakeTurns(Uploading(old(View()), true, []), batch, ts)
      {
        assert ts[i..][0] == ts[i] && ts[i..][1..] == ts[i + 1..];
        ghost var before := Uploading(View(), running, posts);
        if running {
          running, posts := Upload(batch, ts[i], posts);
        } else {
          Produce(ts[i].added);
        }
        assert Uploading(View(), running, posts) == TakeTurn(before, batch, ts[i]);
      }
    }

    /** One turn of it. */
    method Upload(batch: nat, t: Turn, made: seq<seq<Payload>>) returns (running: bool, posts: seq<seq<Payload>>)
      requires Inv(View())
      modifies this
      ensures Uploading(View(), running, posts) == TakeTurn(Uploading(old(View()), true, made), batch, t) && Inv(View())
    {
      var peeked := PeekRows(batch);
      var ids := RowIds(peeked);
      Produce(t.added);
      if ids == [] { return true, made; }
      posts := made + [Payloads(peeked)];
      if t.result.BadReply? { return false, posts; }
      match OutcomeOf(t.result, ids) {
        case Ack(acked) => Ack(acked);
        case Reject(refused, reason) => Reject(refused, reason);
        case Fail(failed) => Fail(failed);
        case Add(_) => assert false;
      }
      running := true;
    }

    /** The producer thread. */
    method Produce(ps: seq<Payload>)
      requires Inv(View())
      modifies this
      ensures View() == AddAll(old(View()), ps) && Inv(View())
    {
      assert ps[0..] == ps;
      for i := 0 to |ps|
        invariant Inv(View()) && AddAll(View(), ps[i..]) == AddAll(old(View()), ps)
      {
        assert ps[i..][0] == ps[i] && ps[i..][1..] == ps[i + 1..];
        Add(ps[i]);
      }
    }
  }
}
