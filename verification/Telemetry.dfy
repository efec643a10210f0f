/** Telemetry fan-out to WebSocket clients (monitors/manager.py): one bounded
    queue a client, the oldest message giving way to the newest. */
module Telemetry {

  type Message = string

  /** put_nowait, with the oldest message dropped from a full queue. */
  function Offer(items: seq<Message>, cap: nat, m: Message): seq<Message>
    requires cap >= 1
  {
    if |items| < cap then items + [m] else items[1..] + [m]
  }

  // ---------------------------------------------------------------------
  // One client over a whole run
  // ---------------------------------------------------------------------

  datatype Event = Broadcast(m: Message) | Read

  /** A client's queue and what its reader has received. */
  datatype Client = Client(items: seq<Message>, received: seq<Message>)

  function Step(c: Client, cap: nat, e: Event): Client
    requires cap >= 1
  {
    match e
    case Broadcast(m) => c.(items := Offer(c.items, cap, m))
    case Read => if c.items == [] then c else Client(c.items[1..], c.received + [c.items[0]])
  }

  function Run(cap: nat, es: seq<Event>): Client
    requires cap >= 1
  {
    if es == [] then Client([], []) else Step(Run(cap, es[..|es| - 1]), cap, es[|es| - 1])
  }

  /** Everything broadcast since the client joined. */
  function Sent(es: seq<Event>): seq<Message> {
    if es == [] then []
    else Sent(es[..|es| - 1]) + (if es[|es| - 1].Broadcast? then [es[|es| - 1].m] else [])
  }

  predicate Increasing(ks: seq<nat>, bound: nat) {
    && (forall i, j :: 0 <= i < j < |ks| ==> ks[i] < ks[j])
    && (forall i :: 0 <= i < |ks| ==> ks[i] < bound)
  }

  /** `ks` are the places in the broadcast sequence of what the reader got. */
  predicate Places(c: Client, sent: seq<Message>, ks: seq<nat>) {
    && |ks| == |c.received| && |c.items| <= |sent|
    && Increasing(ks, |sent| - |c.items|)
    && (forall i :: 0 <= i < |ks| ==> sent[ks[i]] == c.received[i])
  }

  lemma PlacesAfterBroadcast(c: Client, cap: nat, sent: seq<Message>, ks: seq<nat>, m: Message)
    requires cap >= 1 && |c.items| <= cap && Places(c, sent, ks) && c.items == sent[|sent| - |c.items|..]
    ensures var c1 := Step(c, cap, Broadcast(m));
      && |c1.items| <= cap && Places(c1, sent + [m], ks)
      && c1.items == (sent + [m])[|sent| + 1 - |c1.items|..]
  {
    var c1 := Step(c, cap, Broadcast(m));
    assert forall i :: 0 <= i < |ks| ==> (sent + [m])[ks[i]] == sent[ks[i]];
    assert (sent + [m])[|sent| - |c.items|..] == c.items + [m];
  }

  lemma PlacesAfterRead(c: Client, cap: nat, sent: seq<Message>, ks: seq<nat>) returns (ks1: seq<nat>)
    requires cap >= 1 && |c.items| <= cap && Places(c, sent, ks) && c.items == sent[|sent| - |c.items|..]
    ensures var c1 := Step(c, cap, Read);
      && |c1.items| <= cap && Places(c1, sent, ks1) && c1.items == sent[|sent| - |c1.items|..]
  {
    if c.items == [] {
      ks1 := ks;
    } else {
      var k := |sent| - |c.items|;
      ks1 := ks + [k];
      assert sent[k] == c.items[0];
    }
  }

  /** However broadcasts and reads interleave: the queue is the newest part of
      what was broadcast, never over capacity, and what the reader got is a
      subsequence of it, in order, each message at most once, all of it older
      than anything still queued. */
  lemma {:induction false} QueueIsNewestPart(cap: nat, es: seq<Event>) returns (ks: seq<nat>)
    requires cap >= 1
    ensures var c := Run(cap, es); var sent := Sent(es);
      && |c.items| <= cap && |c.items| <= |sent|
      && c.items == sent[|sent| - |c.items|..]
      && Places(c, sent, ks)
    decreases |es|
  {
    if es == [] {
      ks := [];
    } else {
      var before, e := es[..|es| - 1], es[|es| - 1];
      var js := QueueIsNewestPart(cap, before);
      var c, sent := Run(cap, before), Sent(before);
      if e.Broadcast? {
        PlacesAfterBroadcast(c, cap, sent, js, e.m);
        ks := js;
      } else {
        assert Sent(es) == sent;
        ks := PlacesAfterRead(c, cap, sent, js);
      }
    }
  }

  /** A message gives way only in a full queue, one at a time, the oldest first. */
  lemma OnlyTheOldestGivesWay(cap: nat, es: seq<Event>, m: Message)
    requires cap >= 1
    ensures var items, items1 := Run(cap, es).items, Run(cap, es + [Broadcast(m)]).items;
      && |items1| == (if |items| < cap then |items| + 1 else cap)
      && items1 == (items + [m])[|items| + 1 - |items1|..]
  {
    assert (es + [Broadcast(m)])[..|es|] == es;
    var ks := QueueIsNewestPart(cap, es);
  }

  /** The newest message is always queued. */
  lemma NewestIsQueued(cap: nat, es: seq<Event>, m: Message)
    requires cap >= 1
    ensures var items := Run(cap, es + [Broadcast(m)]).items; items != [] && items[|items| - 1] == m
  {
    assert (es + [Broadcast(m)])[..|es|] == es;
  }

  /** A reader that keeps up misses nothing: as long as no more than the capacity
      is broadcast, queue and received messages together are all there was. */
  lemma {:induction false} NothingLostBelowCapacity(cap: nat, es: seq<Event>)
    requires cap >= 1 && |Sent(es)| <= cap
    ensures Run(cap, es).received + Run(cap, es).items == Sent(es)
    decreases |es|
  {
    if es != [] {
      var before, e := es[..|es| - 1], es[|es| - 1];
      assert |Sent(before)| <= |Sent(es)|;
      NothingLostBelowCapacity(cap, before);
      var c := Run(cap, before);
      if e.Broadcast? {
        assert |c.items| <= |Sent(before)| < cap;
        assert c.received + (c.items + [e.m]) == (c.received + c.items) + [e.m];
      } else if c.items != [] {
        assert (c.received + [c.items[0]]) + c.items[1..] == c.received + c.items;
      }
    }
  }

  // ---------------------------------------------------------------------
  // The objects
  // ---------------------------------------------------------------------

  class Queue {
    const cap: nat
    var items: seq<Message>

    constructor (cap: nat)
      ensures this.cap == cap && items == []
    {
      this.cap := cap;
      items := [];
    }

    /** False stands for QueueFull. */
    method PutNowait(m: Message) returns (ok: bool)
      modifies this
      ensures ok == (old(|items|) < cap)
      ensures items == if ok then old(items) + [m] else old(items)
    {
      ok := |items| < cap;
      if ok {
        items := items + [m];
      }
    }

    /** False stands for QueueEmpty. */
    method GetNowait() returns (ok: bool)
      modifies this
      ensures ok == (old(items) != [])
      ensures items == if ok then old(items)[1..] else old(items)
    {
      ok := items != [];
      if ok {
        items := items[1..];
      }
    }
  }

  class TelemetryMonitor {
    var clients: set<Queue>

    ghost predicate Valid()
      reads this, clients
    {
      forall q :: q in clients ==> q.cap >= 1 && |q.items| <= q.cap
    }

    constructor ()
      ensures Valid() && clients == {}
    {
      clients := {};
    }

    method AddClient(q: Queue)
      requires Valid() && q.cap >= 1 && |q.items| <= q.cap
      modifies this
      ensures Valid() && clients == old(clients) + {q}
    {
      clients := clients + {q};
    }

    method RemoveClient(q: Queue)
      requires Valid()
      modifies this
      ensures Valid() && clients == old(clients) - {q}
    {
      clients := clients - {q};
    }

    /** Every client's queue takes the message, and no client is evicted. */
    method Broadcast(m: Message)
      requires Valid()
      modifies this, clients
      ensures Valid() && clients == old(clients)
      ensures forall q :: q in clients ==> q.items == Offer(old(q.items), q.cap, m)
    {
      var dead: set<Queue>, todo := {}, clients;
      while todo != {}
        invariant todo <= clients == old(clients) && dead == {} && Valid()
        invariant forall q :: q in todo ==> q.items == old(q.items)
        invariant forall q :: q in clients && q !in todo ==> q.items == Offer(old(q.items), q.cap, m)
        decreases todo
      {
        var q :| q in todo;
        var put := q.PutNowait(m);
        if !put {
          var got := q.GetNowait();
          if got {
            put := q.PutNowait(m);
          }
          if !put {
            dead := dead + {q};
          }
        }
        todo := todo - {q};
      }
      clients := clients - dead;
    }
  }
}
