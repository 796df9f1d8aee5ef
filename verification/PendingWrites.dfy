/** The clean-up of finished QoS 0 writes (`MQTTProtocol_checkPendingWrites`).

    The loop removes elements while walking the list: it parks the list's cursor on the element to remove and
    relies on the removal to move that cursor to the successor. */
module PendingWrites {
  import opened LinkedList
  import opened Wrappers

  /** A QoS 0 publication kept until the write on its socket is finished. */
  datatype PendingWrite = PendingWrite(socket: int, publication: nat)

  /** The writes whose socket has (or has not) finished writing, in order.  `idle` holds the sockets without pending
      writes. */
  function Writes(writes: seq<PendingWrite>, idle: set<int>, done: bool): seq<PendingWrite> {
    if writes == [] then []
    else (if (writes[0].socket in idle) == done then [writes[0]] else [])
         + Writes(writes[1..], idle, done)
  }

  /** They are exactly those, in their order: `f` says where each of them stood. */
  lemma {:induction false} WritesAre(writes: seq<PendingWrite>, idle: set<int>, done: bool) returns (f: seq<nat>)
    ensures var w := Writes(writes, idle, done);
            && |f| == |w| && (forall i, j :: 0 <= i < j < |f| ==> f[i] < f[j])
            && (forall k :: 0 <= k < |f| ==> f[k] < |writes| && w[k] == writes[f[k]])
            && forall i :: 0 <= i < |writes| ==> (i in f <==> (writes[i].socket in idle) == done)
    decreases |writes|
  {
    f := [];
    if writes != [] {
      var rest, w := writes[..|writes| - 1], writes[|writes| - 1];
      assert writes == rest + [w];
      WritesSnoc(rest, w, idle, done);
      f := WritesAre(rest, idle, done);
      if (w.socket in idle) == done {
        f := f + [|rest|];
      }
    }
  }

  function Publications(writes: seq<PendingWrite>): seq<nat> {
    seq(|writes|, i requires 0 <= i < |writes| => writes[i].publication)
  }

  lemma {:induction false} WritesSnoc(writes: seq<PendingWrite>, w: PendingWrite, idle: set<int>, done: bool)
    ensures Writes(writes + [w], idle, done)
         == Writes(writes, idle, done) + if (w.socket in idle) == done then [w] else []
  {
    if writes == [] {
      assert writes + [w] == [w];
    } else {
      assert (writes + [w])[1..] == writes[1..] + [w];
      WritesSnoc(writes[1..], w, idle, done);
    }
  }

  /** The elements kept so far, then those not looked at; and what has been released. */
  ghost predicate Halfway(contents: seq<PendingWrite>, released: seq<nat>, was: seq<PendingWrite>,
                          idle: set<int>, i: nat, j: nat)
  {
    && j <= |was|
    && i == |Writes(was[..j], idle, false)|
    && contents == Writes(was[..j], idle, false) + was[j..]
    && released == Publications(Writes(was[..j], idle, true))
  }

  lemma Start(was: seq<PendingWrite>, idle: set<int>)
    ensures Halfway(was, [], was, idle, 0, 0)
  {
  }

  lemma Advance(contents: seq<PendingWrite>, released: seq<nat>, was: seq<PendingWrite>,
                idle: set<int>, i: nat, j: nat)
    requires Halfway(contents, released, was, idle, i, j) && i < |contents|
    ensures j < |was| && contents[i] == was[j]
    ensures was[j].socket in idle ==>
              Halfway(Without(contents, i), released + [was[j].publication], was, idle, i, j + 1)
    ensures was[j].socket !in idle ==> Halfway(contents, released, was, idle, i + 1, j + 1)
  {
    assert was[..j + 1] == was[..j] + [was[j]];
    WritesSnoc(was[..j], was[j], idle, false);
    WritesSnoc(was[..j], was[j], idle, true);
    assert was[j..] == [was[j]] + was[j + 1..];
  }

  lemma Finish(contents: seq<PendingWrite>, released: seq<nat>, was: seq<PendingWrite>,
               idle: set<int>, i: nat, j: nat)
    requires Halfway(contents, released, was, idle, i, j) && i == |contents|
    ensures contents == Writes(was, idle, false)
    ensures released == Publications(Writes(was, idle, true))
  {
    assert was[..j] == was;
  }

  /** Every finished write goes, every other stays, both in their old order; each removed publication is released
      once. */
  method CheckPendingWrites(pending: List<PendingWrite>, idle: set<int>) returns (released: seq<nat>)
    requires pending.Valid()
    modifies pending, pending.items
    ensures pending.Valid()
    ensures pending.contents == Writes(old(pending.contents), idle, false)
    ensures released == Publications(Writes(old(pending.contents), idle, true))
  {
    hide Halfway, Writes, Publications, Distinct, Forward, Backward, Holds;
    released := [];
    ghost var was, elements := pending.contents, pending.items;
    ghost var i, j := 0, 0;
    Start(was, idle);
    if pending.count > 0 {
      var le := pending.first;
      while le != null
        invariant pending.Valid() && (forall k :: 0 <= k < |pending.items| ==> pending.items[k] in elements)
        invariant 0 <= j <= |was| && 0 <= i <= |pending.items| && le == At(pending.items, i)
        invariant Halfway(pending.contents, released, was, idle, i, j)
        decreases |was| - j
      {
        i, le, released := Visit(pending, le, idle, released, was, i, j);
        j := j + 1;
      }
    }
    Finish(pending.contents, released, was, idle, i, j);
  }

  /** One turn of the loop. */
  method Visit(pending: List<PendingWrite>, le: ListElement<PendingWrite>, idle: set<int>, released: seq<nat>,
               ghost was: seq<PendingWrite>, ghost i: nat, ghost j: nat)
      returns (ghost i': nat, next: ListElement?<PendingWrite>, released': seq<nat>)
    requires pending.Valid() && i < |pending.items| && pending.items[i] == le
    requires Halfway(pending.contents, released, was, idle, i, j)
    modifies pending, pending.items
    ensures pending.Valid()
    ensures forall k :: 0 <= k < |pending.items| ==> pending.items[k] in old(pending.items)
    ensures j < |was| && i' <= |pending.items| && next == At(pending.items, i')
    ensures Halfway(pending.contents, released', was, idle, i', j + 1)
  {
    Advance(pending.contents, released, was, idle, i, j);
    assert le.content == was[j];
    hide Halfway, Writes, Publications, Without, Distinct, Forward, Backward, Holds;
    if le.content.socket in idle {
      released' := released + [le.content.publication];
      WithoutWithin(pending.items, i);
      next := RemoveAt(pending, le, i);
      i' := i;
    } else {
      released' := released;
      next := pending.NextElement(le, i);
      i' := i + 1;
    }
  }

  lemma WithoutWithin<A>(s: seq<A>, k: nat)
    requires k < |s|
    ensures forall j :: 0 <= j < |Without(s, k)| ==> Without(s, k)[j] in s
  {
  }

  /** Remove the element `le` through a search by content, and step to its successor. */
  method RemoveAt(pending: List<PendingWrite>, le: ListElement<PendingWrite>, ghost i: nat)
      returns (next: ListElement?<PendingWrite>)
    requires pending.Valid() && i < |pending.items| && pending.items[i] == le
    modifies pending, pending.items
    ensures pending.Valid()
    ensures pending.items == Without(old(pending.items), i) && pending.contents == Without(old(pending.contents), i)
    ensures next == At(pending.items, i)
  {
    pending.current := le;
    pending.cursor := i;
    ghost var before := pending.items;
    var content := le.content;
    var removed, k := pending.Unlink(c => c == content);
    assert pending.contents == Without(old(pending.contents), i);
    next := pending.current;
    AtWithout(before, i, i);
  }
}
