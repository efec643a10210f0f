/** The rate window of POST /pair/register (transport/ws_server.py): per client,
    ten requests to a window, and a new window once more than 60 seconds have
    passed since the current one began. */
module PairLimiter {

  const WINDOW := 60.0
  const LIMIT := 10

  type Client = string

  datatype Window = Window(start: real, count: nat)

  function Roll(w: Window, now: real): Window {
    if now - w.start > WINDOW then Window(now, 1) else w.(count := w.count + 1)
  }

  predicate Passes(w: Window) { w.count <= LIMIT }

  /** How many of one client's requests, at the given times, pass the limiter. */
  function Passed(w: Window, times: seq<real>): nat
    decreases |times|
  {
    if times == [] then 0
    else
      var w1 := Roll(w, times[0]);
      (if Passes(w1) then 1 else 0) + Passed(w1, times[1..])
  }

  function After(w: Window, times: seq<real>): Window
    decreases |times|
  {
    if times == [] then w else After(Roll(w, times[0]), times[1..])
  }

  /** Times in order, within [from, to]. */
  predicate Within(times: seq<real>, from: real, to: real)
    decreases |times|
  {
    times == [] || (from <= times[0] <= to && Within(times[1..], times[0], to))
  }

  lemma {:induction false} PassedFromWindow(w: Window, times: seq<real>, to: real, k: nat)
    requires w.start <= to && Within(times, w.start, to)
    requires to - w.start <= WINDOW * (k + 1) as real
    ensures Passed(w, times) <= LIMIT * (k + 1) - (if w.count <= LIMIT then w.count else LIMIT)
    decreases |times|
  {
    if times != [] {
      var t := times[0];
      var w1 := Roll(w, t);
      WithinLater(times[1..], t, w1.start, to);
      if t - w.start > WINDOW {
        assert k >= 1;
        PassedFromWindow(w1, times[1..], to, k - 1);
      } else {
        PassedFromWindow(w1, times[1..], to, k);
      }
    }
  }

  lemma WithinLater(times: seq<real>, from: real, earlier: real, to: real)
    requires Within(times, from, to) && earlier <= from
    ensures Within(times, earlier, to)
  {
  }

  /** Whatever requests came before, any stretch of requests no longer than k
      times a minute lets at most 10 (k + 1) of them past the limiter. */
  lemma RateBound(w: Window, before: seq<real>, times: seq<real>, from: real, to: real, k: nat)
    requires Within(before, w.start, from) && Within(times, from, to)
    requires w.start <= from && to - from <= WINDOW * k as real
    ensures Passed(After(w, before), times) <= LIMIT * (k + 1)
  {
    StartNotLater(w, before, from);
    var v := After(w, before);
    if times != [] {
      var t := times[0];
      var u := Roll(v, t);
      WithinLater(times[1..], t, u.start, to);
      if t - v.start > WINDOW {
        if k == 0 {
          assert to - u.start <= WINDOW * (0 + 1) as real;
          PassedFromWindow(u, times[1..], to, 0);
        } else {
          assert to - u.start <= WINDOW * (k - 1 + 1) as real;
          PassedFromWindow(u, times[1..], to, k - 1);
        }
      } else {
        WithinLater(times, from, v.start, to);
        PassedFromWindow(v, times, to, k);
      }
    }
  }

  lemma {:induction false} StartNotLater(w: Window, times: seq<real>, to: real)
    requires w.start <= to && Within(times, w.start, to)
    ensures After(w, times).start <= to
    decreases |times|
  {
    if times != [] {
      var w1 := Roll(w, times[0]);
      WithinLater(times[1..], times[0], w1.start, to);
      StartNotLater(w1, times[1..], to);
    }
  }

  function Times(n: nat, t: real): seq<real> { seq(n, _ => t) }

  /** The bound is met: ten requests at the end of one window and ten at the
      start of the next, all within a second, pass. */
  lemma {:induction false} BurstPasses(w: Window, n: nat, t: real)
    requires t - w.start <= WINDOW && w.count + n <= LIMIT
    ensures Passed(w, Times(n, t)) == n && After(w, Times(n, t)) == w.(count := w.count + n)
    decreases n
  {
    if n > 0 {
      assert Times(n, t)[1..] == Times(n - 1, t);
      BurstPasses(w.(count := w.count + 1), n - 1, t);
    }
  }

  lemma {:induction false} PassedConcat(w: Window, a: seq<real>, b: seq<real>)
    ensures Passed(w, a + b) == Passed(w, a) + Passed(After(w, a), b)
    decreases |a|
  {
    if a == [] {
      assert a + b == b;
    } else {
      assert (a + b)[1..] == a[1..] + b;
      PassedConcat(Roll(w, a[0]), a[1..], b);
    }
  }

  lemma TwentyIsReached(start: real)
    ensures Passed(Window(start, 0), Times(10, start + 60.0) + Times(10, start + 60.5)) == 20
  {
    var w := Window(start, 0);
    BurstPasses(w, 10, start + 60.0);
    PassedConcat(w, Times(10, start + 60.0), Times(10, start + 60.5));
    assert Times(10, start + 60.5)[1..] == Times(9, start + 60.5);
    BurstPasses(Window(start + 60.5, 1), 9, start + 60.5);
  }

  // ---------------------------------------------------------------------
  // All clients together
  // ---------------------------------------------------------------------

  datatype Request = Request(client: Client, time: real)

  type Windows = map<Client, Window>

  function Serve(m: Windows, r: Request): Windows {
    var w := if r.client in m then m[r.client] else Window(r.time, 0);
    m[r.client := Roll(w, r.time)]
  }

  function ServeAll(m: Windows, rs: seq<Request>): Windows
    decreases |rs|
  {
    if rs == [] then m else ServeAll(Serve(m, rs[0]), rs[1..])
  }

  /** How many of client x's requests get past the limiter. */
  function PassedOf(m: Windows, rs: seq<Request>, x: Client): nat
    decreases |rs|
  {
    if rs == [] then 0
    else
      var m1 := Serve(m, rs[0]);
      (if rs[0].client == x && Passes(m1[x]) then 1 else 0) + PassedOf(m1, rs[1..], x)
  }

  function TimesOf(rs: seq<Request>, x: Client): seq<real> {
    if rs == [] then []
    else if rs[0].client == x then [rs[0].time] + TimesOf(rs[1..], x)
    else TimesOf(rs[1..], x)
  }

  /** Requests in order, within [from, to]. */
  predicate Ordered(rs: seq<Request>, from: real, to: real)
    decreases |rs|
  {
    rs == [] || (from <= rs[0].time <= to && Ordered(rs[1..], rs[0].time, to))
  }

  lemma {:induction false} TimesWithin(rs: seq<Request>, x: Client, from: real, to: real)
    requires Ordered(rs, from, to)
    ensures Within(TimesOf(rs, x), from, to)
    decreases |rs|
  {
    if rs != [] {
      var t := rs[0].time;
      TimesWithin(rs[1..], x, t, to);
      if rs[0].client == x {
        assert TimesOf(rs, x)[1..] == TimesOf(rs[1..], x);
      } else {
        WithinLater(TimesOf(rs[1..], x), t, from, to);
      }
    }
  }

  /** Other clients' requests make no difference to a client. */
  lemma {:induction false} ClientsAreApart(m: Windows, rs: seq<Request>, x: Client, w: Window)
    requires if x in m then m[x] == w else TimesOf(rs, x) == [] || w == Window(TimesOf(rs, x)[0], 0)
    ensures PassedOf(m, rs, x) == Passed(w, TimesOf(rs, x))
    ensures x in ServeAll(m, rs) <==> x in m || TimesOf(rs, x) != []
    ensures x in ServeAll(m, rs) ==> ServeAll(m, rs)[x] == After(w, TimesOf(rs, x))
    decreases |rs|
  {
    if rs != [] {
      var m1 := Serve(m, rs[0]);
      if rs[0].client == x {
        assert TimesOf(rs, x)[1..] == TimesOf(rs[1..], x);
        ClientsAreApart(m1, rs[1..], x, Roll(w, rs[0].time));
      } else {
        ClientsAreApart(m1, rs[1..], x, w);
      }
    }
  }

  /** From the server's start on, whatever all the clients send: no client gets
      more than 10 (k + 1) requests past the limiter in any k minutes. */
  lemma ClientRate(before: seq<Request>, during: seq<Request>, x: Client, start: real, from: real, to: real, k: nat)
    requires Ordered(before, start, from) && Ordered(during, from, to)
    requires to - from <= 60.0 * k as real
    ensures PassedOf(ServeAll(map[], before), during, x) <= 10 * (k + 1)
  {
    var past, times := TimesOf(before, x), TimesOf(during, x);
    TimesWithin(before, x, start, from);
    TimesWithin(during, x, from, to);
    if past != [] {
      var w := Window(past[0], 0);
      ClientsAreApart(map[], before, x, w);
      ClientsAreApart(ServeAll(map[], before), during, x, After(w, past));
      RateBound(w, past, times, from, to, k);
    } else {
      ClientsAreApart(map[], before, x, Window(from, 0));
      if times != [] {
        var w := Window(times[0], 0);
        ClientsAreApart(ServeAll(map[], before), during, x, w);
        RateBound(w, [], times, times[0], to, k);
      } else {
        ClientsAreApart(ServeAll(map[], before), during, x, Window(from, 0));
      }
    }
  }

  lemma AtMostTwentyAMinute(before: seq<Request>, during: seq<Request>, x: Client, start: real, from: real)
    requires Ordered(before, start, from) && Ordered(during, from, from + 60.0)
    ensures PassedOf(ServeAll(map[], before), during, x) <= 20
  {
    ClientRate(before, during, x, start, from, from + WINDOW, 1);
  }

  // ---------------------------------------------------------------------
  // Who is refused
  // ---------------------------------------------------------------------

  /** How many of one client's requests pass at or after a time. */
  function PassedSince(w: Window, times: seq<real>, since: real): nat
    decreases |times|
  {
    if times == [] then 0
    else
      var w1 := Roll(w, times[0]);
      (if times[0] >= since && Passes(w1) then 1 else 0) + PassedSince(w1, times[1..], since)
  }

  function Capped(n: nat): nat { if n <= LIMIT then n else LIMIT }

  /** The count of a window is made of requests passed since it began. */
  lemma {:induction false} WindowIsEarned(w: Window, times: seq<real>, from: real, to: real)
    requires w.start <= from && Within(times, from, to)
    ensures var v := After(w, times);
      && w.start <= v.start
      && Capped(v.count) <= PassedSince(w, times, v.start) + (if v.start == w.start then Capped(w.count) else 0)
    decreases |times|
  {
    if times != [] {
      WindowIsEarned(Roll(w, times[0]), times[1..], times[0], to);
    }
  }

  lemma {:induction false} PassedSinceEarlier(w: Window, times: seq<real>, since: real, earlier: real)
    requires earlier <= since
    ensures PassedSince(w, times, since) <= PassedSince(w, times, earlier)
    decreases |times|
  {
    if times != [] { PassedSinceEarlier(Roll(w, times[0]), times[1..], since, earlier); }
  }

  /** The window a client's first request opens. */
  function FirstWindow(times: seq<real>): Window
    requires times != []
  {
    Window(times[0], 0)
  }

  /** Nobody is shut out without cause: whatever all the clients have sent, a
      request is refused only to a client of which ten have passed within the
      last sixty seconds. */
  lemma RefusedOnlyAfterTen(before: seq<Request>, r: Request, start: real)
    requires Ordered(before, start, r.time) && !Passes(Serve(ServeAll(map[], before), r)[r.client])
    ensures TimesOf(before, r.client) != []
    ensures PassedSince(FirstWindow(TimesOf(before, r.client)), TimesOf(before, r.client), r.time - 60.0) >= 10
  {
    var times := TimesOf(before, r.client);
    TimesWithin(before, r.client, start, r.time);
    if times == [] {
      ClientsAreApart(map[], before, r.client, Window(0.0, 0));
    } else {
      var w := Window(times[0], 0);
      ClientsAreApart(map[], before, r.client, w);
      WindowIsEarned(w, times, times[0], r.time);
      PassedSinceEarlier(w, times, After(w, times).start, r.time - 60.0);
    }
  }

  class Limiter {
    var attempts: Windows

    constructor ()
      ensures attempts == map[]
    {
      attempts := map[];
    }

    /** One request; only the requesting client's window changes. */
    method Admit(client: Client, now: real) returns (ok: bool)
      modifies this
      ensures attempts == Serve(old(attempts), Request(client, now)) && ok == Passes(attempts[client])
    {
      if client !in attempts {
        attempts := attempts[client := Window(now, 0)];
      }
      var w := attempts[client];
      if now - w.start > WINDOW {
        w := Window(now, 0);
      }
      w := w.(count := w.count + 1);
      attempts := attempts[client := w];
      ok := w.count <= LIMIT;
    }
  }
}
