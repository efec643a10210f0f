/** The Bluetooth link of the gateway: frames are cut into MTU pieces and put on
    a bounded queue that another thread empties (ble_gatt.py). */
module BleLink {
  import opened Wrappers
  import opened Codec

  /** The pieces of a write, each of the chunk size but for the last. */
  function Pieces(data: Bytes, size: nat): seq<Bytes>
    requires size > 0
    decreases |data|
  {
    if |data| <= size then (if data == [] then [] else [data])
    else [data[..size]] + Pieces(data[size..], size)
  }

  lemma {:induction false} FlattenAppend(a: seq<Bytes>, b: seq<Bytes>)
    ensures Flatten(a + b) == Flatten(a) + Flatten(b)
  {
    if a == [] {
      assert a + b == b;
    } else {
      assert (a + b)[1..] == a[1..] + b;
      FlattenAppend(a[1..], b);
    }
  }

  /** The pieces put back together are the data, and none is empty or longer
      than the chunk size. */
  lemma {:induction false} PiecesFlatten(data: Bytes, size: nat)
    requires size > 0
    ensures Flatten(Pieces(data, size)) == data
    ensures forall p :: p in Pieces(data, size) ==> 0 < |p| <= size
    decreases |data|
  {
    if |data| > size {
      PiecesFlatten(data[size..], size);
      assert Pieces(data, size)[1..] == Pieces(data[size..], size);
      assert data[..size] + data[size..] == data;
    }
  }

  /** All but the last have just that size. */
  lemma {:induction false} PiecesAreFull(data: Bytes, size: nat, i: nat)
    requires size > 0 && i < |Pieces(data, size)| - 1
    ensures |Pieces(data, size)[i]| == size
    decreases |data|
  {
    if i > 0 {
      assert Pieces(data, size)[i] == Pieces(data[size..], size)[i - 1];
      PiecesAreFull(data[size..], size, i - 1);
    }
  }

  lemma Rejoin(ps: seq<Bytes>, n: nat)
    requires n <= |ps|
    ensures ps[..n] + ps[n..] == ps
  {
  }

  lemma Leads(a: Bytes, b: Bytes)
    ensures a <= a + b
  {
  }

  /** The first n pieces put together are a prefix of the data. */
  lemma FirstPieces(data: Bytes, size: nat, n: nat)
    requires size > 0 && n <= |Pieces(data, size)|
    ensures Flatten(Pieces(data, size)[..n]) <= data
  {
    var ps := Pieces(data, size);
    PiecesFlatten(data, size);
    FlattenAppend(ps[..n], ps[n..]);
    Rejoin(ps, n);
    Leads(Flatten(ps[..n]), Flatten(ps[n..]));
  }

  lemma Regroup(a: seq<Bytes>, b: seq<Bytes>, c: seq<Bytes>)
    ensures a + (b + c) == (a + b) + c
    ensures (a + b)[..|a|] == a
  {
  }

  /** The pieces from an offset on. */
  function Rest(data: Bytes, size: nat, offset: nat): seq<Bytes>
    requires size > 0
  {
    if offset < |data| then Pieces(data[offset..], size) else []
  }

  function Chunk(data: Bytes, size: nat, offset: nat): Bytes
    requires offset < |data|
  {
    data[offset..if offset + size <= |data| then offset + size else |data|]
  }

  lemma FirstPiece(data: Bytes, size: nat, offset: nat)
    requires size > 0 && offset < |data|
    ensures Rest(data, size, offset) == [Chunk(data, size, offset)] + Rest(data, size, offset + size)
  {
    if offset + size < |data| {
      assert data[offset..][..size] == data[offset..offset + size];
      assert data[offset..][size..] == data[offset + size..];
    } else {
      assert data[offset..|data|] == data[offset..];
    }
  }

  /** One more piece put. */
  lemma Advance(data: Bytes, size: nat, offset: nat, start: seq<Bytes>, put: seq<Bytes>)
    requires size > 0 && offset < |data| && Pieces(data, size) == put + Rest(data, size, offset)
    ensures var piece := Chunk(data, size, offset);
      && Pieces(data, size) == (put + [piece]) + Rest(data, size, offset + size)
      && (start + put) + [piece] == start + (put + [piece])
  {
    FirstPiece(data, size, offset);
    Regroup(put, [Chunk(data, size, offset)], Rest(data, size, offset + size));
    Regroup(start, put, [Chunk(data, size, offset)]);
  }

  /** What was put when the loop ends at an offset. */
  lemma Finish(data: Bytes, size: nat, offset: nat, put: seq<Bytes>)
    requires size > 0 && Pieces(data, size) == put + Rest(data, size, offset)
    ensures |put| <= |Pieces(data, size)| && Pieces(data, size)[..|put|] == put && Flatten(put) <= data
    ensures |put| < |Pieces(data, size)| ==> offset < |data|
  {
    Regroup(put, Rest(data, size, offset), []);
    FirstPieces(data, size, |put|);
  }

  class BleWriter {
    const chunkSize: nat
    const capacity: nat
    var outgoing: seq<Bytes>     // the bounded queue
    var notified: seq<Bytes>     // what the D-Bus thread has taken off it

    ghost predicate Valid()
      reads this
    {
      chunkSize > 0 && |outgoing| <= capacity
    }

    /** Everything queued so far, taken off or not. */
    ghost function Log(): seq<Bytes>
      reads this
    {
      notified + outgoing
    }

    constructor (mtu: nat, capacity: nat)
      ensures Valid() && Log() == [] && chunkSize == (if mtu < 20 then 20 else mtu) && this.capacity == capacity
    {
      chunkSize := if mtu < 20 then 20 else mtu;
      this.capacity := capacity;
      outgoing, notified := [], [];
    }

    /** The other thread takes up to n pieces. */
    method Notify(n: nat)
      requires Valid()
      modifies this
      ensures Valid() && Log() == old(Log()) && old(notified) <= notified
    {
      var m := if n <= |outgoing| then n else |outgoing|;
      notified, outgoing := notified + outgoing[..m], outgoing[m..];
    }

    /** `taken(i)` pieces leave the queue before the i-th put.  What one write
        queues is the first pieces of its data, and all of them unless the
        queue was found full. */
    method Write(data: Bytes, taken: nat -> nat) returns (queued: nat)
      requires Valid()
      modifies this
      ensures Valid() && queued <= |Pieces(data, chunkSize)|
      ensures Log() == old(Log()) + Pieces(data, chunkSize)[..queued]
      ensures Flatten(Pieces(data, chunkSize)[..queued]) <= data
      ensures queued < |Pieces(data, chunkSize)| ==> |outgoing| == capacity
      ensures old(notified) <= notified
    {
      var offset, full := 0, false;
      queued := 0;
      ghost var pieces, put, start := Pieces(data, chunkSize), [], Log();
      assert data[0..] == data;
      while offset < |data| && !full
        invariant Valid() && queued == |put| && Log() == start + put
        invariant pieces == put + Rest(data, chunkSize, offset)
        invariant full ==> |outgoing| == capacity
        invariant old(notified) <= notified
        decreases |data| - offset, !full
      {
        Notify(taken(queued));
        full := |outgoing| == capacity;
        if !full {
          var piece := Chunk(data, chunkSize, offset);
          Advance(data, chunkSize, offset, start, put);
          Put(piece);
          put := put + [piece];
          offset, queued := offset + chunkSize, queued + 1;
        }
      }
      Finish(data, chunkSize, offset, put);
    }

    method Put(piece: Bytes)
      requires Valid() && |outgoing| < capacity
      modifies this
      ensures Valid() && Log() == old(Log()) + [piece] && notified == old(notified)
    {
      outgoing := outgoing + [piece];
    }
  }

  // ---------------------------------------------------------------------
  // Frames cut into pieces
  // ---------------------------------------------------------------------

  function Cut(payload: Bytes, size: nat): seq<Bytes>
    requires size > 0
  {
    Pieces(Frame(payload), size)
  }

  /** All the pieces of all the payloads. */
  function CutAll(payloads: seq<Bytes>, size: nat): seq<Bytes>
    requires size > 0
  {
    if payloads == [] then []
    else CutAll(payloads[..|payloads| - 1], size) + Cut(payloads[|payloads| - 1], size)
  }

  // ---------------------------------------------------------------------
  // What a bounded queue lets through
  // ---------------------------------------------------------------------

  function Sum(counts: seq<nat>): nat {
    if counts == [] then 0 else Sum(counts[..|counts| - 1]) + counts[|counts| - 1]
  }

  /** The first `counts[i]` pieces of the i-th payload, for each i. */
  function CutTo(payloads: seq<Bytes>, counts: seq<nat>, size: nat): seq<Bytes>
    requires size > 0 && |counts| == |payloads|
  {
    if payloads == [] then []
    else
      var n := |payloads| - 1;
      var pieces := Cut(payloads[n], size);
      CutTo(payloads[..n], counts[..n], size) + (if counts[n] <= |pieces| then pieces[..counts[n]] else pieces)
  }

  /** A write stops short only after at least `room` pieces, all the room there
      was at first, have been queued. */
  predicate Fills(payloads: seq<Bytes>, counts: seq<nat>, size: nat, room: int)
    requires size > 0 && |counts| == |payloads|
  {
    payloads == [] ||
    (var n := |payloads| - 1;
     && Fills(payloads[..n], counts[..n], size, room)
     && counts[n] <= |Cut(payloads[n], size)|
     && (counts[n] < |Cut(payloads[n], size)| ==> Sum(counts) >= room))
  }

  predicate Whole(payloads: seq<Bytes>, counts: seq<nat>, size: nat)
    requires size > 0 && |counts| == |payloads|
  {
    forall i :: 0 <= i < |payloads| ==> counts[i] == |Cut(payloads[i], size)|
  }

  // ---------------------------------------------------------------------
  // From end to end
  // ---------------------------------------------------------------------

  lemma {:induction false} FrameAllAppend(payloads: seq<Bytes>, p: Bytes)
    ensures FrameAll(payloads + [p]) == FrameAll(payloads) + [Frame(p)]
  {
    if payloads != [] {
      assert (payloads + [p])[1..] == payloads[1..] + [p];
      FrameAllAppend(payloads[1..], p);
    }
  }

  lemma {:induction false} CutAllFlatten(payloads: seq<Bytes>, size: nat)
    requires size > 0
    ensures Flatten(CutAll(payloads, size)) == Flatten(FrameAll(payloads))
  {
    if payloads != [] {
      var before, p := payloads[..|payloads| - 1], payloads[|payloads| - 1];
      CutAllFlatten(before, size);
      PiecesFlatten(Frame(p), size);
      FlattenAppend(CutAll(before, size), Cut(p, size));
      assert before + [p] == payloads;
      FrameAllAppend(before, p);
      FlattenAppend(FrameAll(before), [Frame(p)]);
      FlattenOne(Frame(p));
    }
  }

  lemma FlattenOne(b: Bytes)
    ensures Flatten([b]) == b
  {
    assert [b][1..] == [];
  }

  /** What found room is everything exactly when no write stopped short, and is
      shorter otherwise. */
  lemma {:induction false} WholeIff(payloads: seq<Bytes>, counts: seq<nat>, size: nat, room: int)
    requires size > 0 && |counts| == |payloads| && Fills(payloads, counts, size, room)
    ensures Whole(payloads, counts, size) ==> CutTo(payloads, counts, size) == CutAll(payloads, size)
    ensures |Flatten(CutTo(payloads, counts, size))| <= |Flatten(CutAll(payloads, size))|
    ensures !Whole(payloads, counts, size) ==>
      |Flatten(CutTo(payloads, counts, size))| < |Flatten(CutAll(payloads, size))|
  {
    if payloads != [] {
      var n := |payloads| - 1;
      var ps, cs, pieces := payloads[..n], counts[..n], Cut(payloads[n], size);
      WholeIff(ps, cs, size, room);
      FlattenAppend(CutTo(ps, cs, size), pieces[..counts[n]]);
      FlattenAppend(CutAll(ps, size), pieces);
      FirstPiecesShorter(payloads[n], size, counts[n]);
      assert pieces[..|pieces|] == pieces;
    }
  }

  lemma {:induction false} RoomForAll(payloads: seq<Bytes>, counts: seq<nat>, size: nat, room: int)
    requires size > 0 && |counts| == |payloads| && Fills(payloads, counts, size, room)
    ensures Sum(counts) <= |CutAll(payloads, size)|
    ensures |CutAll(payloads, size)| <= room ==> Whole(payloads, counts, size)
  {
    if payloads != [] {
      var n := |payloads| - 1;
      RoomForAll(payloads[..n], counts[..n], size, room);
    }
  }

  lemma FirstPiecesShorter(payload: Bytes, size: nat, n: nat)
    requires size > 0 && n <= |Cut(payload, size)|
    ensures |Flatten(Cut(payload, size)[..n])| <= |Flatten(Cut(payload, size))|
    ensures n < |Cut(payload, size)| ==> |Flatten(Cut(payload, size)[..n])| < |Flatten(Cut(payload, size))|
  {
    var ps := Cut(payload, size);
    Rejoin(ps, n);
    FlattenAppend(ps[..n], ps[n..]);
    PiecesFlatten(Frame(payload), size);
    if n < |ps| {
      assert ps[n..][0] == ps[n] && ps[n] in ps;
      assert |ps[n]| > 0;
    }
  }

  /** What the receive loop queued, decoded piece by piece at the other end, is
      exactly the relayed envelopes, in order and with nothing left over, if and
      only if no write stopped short; and none does if the queue had room for
      all the pieces from the start. */
  lemma LinkDelivers(d: Decoding, payloads: seq<Bytes>, counts: seq<nat>, size: nat, room: int)
    requires size > 0 && |counts| == |payloads| && Fills(payloads, counts, size, room)
    requires forall p :: p in payloads ==> Deliverable(d, p)
    ensures FeedAll(d, [], CutTo(payloads, counts, size)) == Fed(payloads, [], None, []) <==>
      Whole(payloads, counts, size)
    ensures |CutAll(payloads, size)| <= room ==> Whole(payloads, counts, size)
  {
    var pieces := CutTo(payloads, counts, size);
    WholeIff(payloads, counts, size, room);
    RoomForAll(payloads, counts, size, room);
    CutAllFlatten(payloads, size);
    if Whole(payloads, counts, size) {
      CutRoundTrip(d, payloads, pieces);
    } else {
      NothingParsed(d);
      ChunkingIndependence(d, [], pieces);
      assert [] + Flatten(pieces) == Flatten(pieces);
      FramesNeedBytes(d, Flatten(pieces));
    }
  }
}
